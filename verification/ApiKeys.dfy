/** Roles and the API keys cut from them (internal/httpapi/auth.go, admin.go, mcpoauth.go). */
module ApiKeys {
  import opened Common
  import opened Permissions

  // The permission words a role may be given.

  function RouteCodes(objectType: string): seq<string> {
    [objectType + ".amount.read", objectType + ".create", objectType + ".read", objectType + ".update"]
  }

  const OBJECT_TYPES := ["contract", "purchase_request", "rfq", "rfp", "purchase_order", "delivery",
                         "inspection", "quality", "issue", "invoice", "payment"]

  const WILDCARD_CODES: set<string> := {"*", "*.read", "portal.*"}

  const READING_CODES: set<string> :=
    {"analytics.read", "audit.read", "dashboard.read", "document.read", "evaluation.read", "risk.read", "spend.read"} +
    {"supplier.bank_account.read", "supplier.financial.read", "supplier.read", "supplier.tax.read", "workflow.read"}

  const ACTING_CODES: set<string> :=
    {"ai.use", "document.create", "document.update", "evaluation.create", "risk.create", "spend.create"} +
    {"supplier.create", "supplier.update", "workflow.approve", "workflow.create", "workflow.update"}

  const FIXED_CODES: set<string> := WILDCARD_CODES + READING_CODES + ACTING_CODES

  /** permissionCodes, as a set: nothing depends on its order. */
  function Codes(): set<string> {
    FIXED_CODES + set i, j | 0 <= i < |OBJECT_TYPES| && 0 <= j < 4 :: RouteCodes(OBJECT_TYPES[i])[j]
  }

  /** A written word reaches one of the doors. */
  predicate Reaches(written: string, codes: set<string>) {
    exists code :: code in codes && Matches(written, code)
  }

  predicate GrantsSomething(written: string) { Reaches(written, Codes()) }

  /** A door with a wildcard at either end has no dot beyond the one beside the wildcard. */
  predicate LoneWildcard(code: string) {
    && code != ""
    && (code[0] == '*' ==> forall k :: 2 <= k < |code| ==> code[k] != '.')
    && (code[|code| - 1] == '*' ==> forall k :: 0 <= k < |code| - 2 ==> code[k] != '.')
  }

  predicate PlainEnds(code: string) { |code| >= 2 && code[0] != '*' && code[|code| - 1] != '*' }

  lemma CodeEnds(code: string)
    requires code in Codes()
    ensures LoneWildcard(code)
  {
    if code in FIXED_CODES {
      WildcardCodesAreLone(code);
      ActingCodesArePlain(code);
      ReadingCodesArePlain(code);
    } else {
      var i, j :| 0 <= i < |OBJECT_TYPES| && 0 <= j < 4 && code == RouteCodes(OBJECT_TYPES[i])[j];
      RouteCodesArePlain(OBJECT_TYPES[i], code);
    }
  }

  lemma WildcardCodesAreLone(code: string)
    ensures code in WILDCARD_CODES ==> LoneWildcard(code)
  {
  }

  lemma ActingCodesArePlain(code: string)
    ensures code in ACTING_CODES ==> PlainEnds(code)
  {
  }

  lemma ReadingCodesArePlain(code: string)
    ensures code in READING_CODES ==> PlainEnds(code)
  {
  }

  lemma RouteCodesArePlain(objectType: string, code: string)
    requires objectType in OBJECT_TYPES && code in RouteCodes(objectType)
    ensures PlainEnds(code)
  {
    assert |objectType| >= 2 && objectType[0] != '*';
    assert code[0] == objectType[0];
  }

  /** The one word with two wildcard ends that a role may be given is "*.*". */
  lemma AcceptedTwoEnded(word: string)
    requires TwoEnded(word)
    ensures GrantsSomething(word) <==> word == "*.*"
  {
    if word == "*.*" {
      assert "*.read" in FIXED_CODES;
      assert word[..|word| - 1] == "*.";
      assert Matches(word, "*.read");
    }
    if GrantsSomething(word) {
      var code :| code in Codes() && Matches(word, code);
      CodeEnds(code);
      TwoEndedReaches(word, code);
    }
  }

  lemma TwoEndedReaches(word: string, code: string)
    requires TwoEnded(word) && Matches(word, code) && LoneWildcard(code)
    ensures word == "*.*"
  {
    var p, t := word[..|word| - 1], word[1..];
    assert word[|word| - 2] == '.' && word[|word| - 1] == '*' by { assert word[|word| - 2..] == ".*"; }
    if word == code {
      assert code[|word| - 2] == '.';
    } else if p <= code {
      assert code[0] == p[0] == '*' && code[|p| - 1] == p[|p| - 1] == '.';
    } else {
      LastOfSuffix(code, t);
      assert code[|code| - |t|..][0] == code[|code| - |t|] == t[0] == '.';
    }
    assert |word| == 3;
  }

  predicate WordAccepted(word: string) { word != "" && Trim(word) == word && GrantsSomething(word) }

  /** Every word of the list passed the check a role's list is written through. */
  predicate Accepted(words: seq<string>) {
    forall word :: word in words ==> WordAccepted(word)
  }

  predicate WordTame(word: string) { TwoEnded(word) ==> word == "*.*" }

  /** The list may hold words that open nothing, but no word with two wildcard ends except "*.*". */
  predicate Tame(words: seq<string>) {
    forall word :: word in words ==> WordTame(word)
  }

  lemma AcceptedIsTame(words: seq<string>)
    requires Accepted(words)
    ensures Tame(words)
  {
    hide TwoEnded, GrantsSomething, Trim;
    forall word | word in words ensures WordTame(word) {
      assert WordAccepted(word);
      if TwoEnded(word) {
        AcceptedTwoEnded(word);
      }
    }
  }

  lemma TameIsCleanExactly(words: seq<string>)
    requires Tame(words)
    ensures Clean(words) <==> "*" in words || "*.*" !in words
  {
    assert TwoEnded("*.*");
    assert forall word :: word in words && TwoEnded(word) ==> WordTame(word);
    CleanWhenOnly(words, "*.*");
  }

  /** For a list that passed the check: it is clean exactly when it has no "*.*", or has "*" as well. */
  lemma AcceptedIsCleanExactly(words: seq<string>)
    requires Accepted(words)
    ensures Clean(words) <==> "*" in words || "*.*" !in words
  {
    AcceptedIsTame(words);
    TameIsCleanExactly(words);
  }

  lemma CleanWhenOnly(words: seq<string>, star: string)
    requires TwoEnded(star) && forall word :: word in words && TwoEnded(word) ==> word == star
    ensures Clean(words) <==> "*" in words || star !in words
  {
    if star in words {
      var i :| 0 <= i < |words| && words[i] == star;
      assert TwoEnded(words[i]);
    }
    assert forall i :: 0 <= i < |words| ==> words[i] in words;
  }

  // What a key is cut from.

  /** The words in order of first appearance. */
  function Distinct(words: seq<string>): (r: seq<string>)
    ensures forall x :: x in r <==> x in words
    ensures forall i, j :: 0 <= i < j < |r| ==> r[i] != r[j]
  {
    if words == [] then []
    else
      var front, last := words[..|words| - 1], words[|words| - 1];
      assert forall x :: x in words <==> x in front || x == last;
      if last in Distinct(front) then Distinct(front) else Distinct(front) + [last]
  }

  function Trimmed(words: seq<string>): (r: seq<string>)
    ensures |r| == |words| && forall i :: 0 <= i < |r| ==> r[i] == Trim(words[i])
  {
    seq(|words|, i requires 0 <= i < |words| => Trim(words[i]))
  }

  /** The creator may put the word on a key. */
  predicate MayHandOn(permissions: seq<string>, scope: string) { scope != "" && Allows(permissions, scope) }

  predicate MayHandOnAll(permissions: seq<string>, words: seq<string>) {
    forall i :: 0 <= i < |words| ==> MayHandOn(permissions, words[i])
  }

  /** The scopes stored for the words asked for, or the refusal of the whole request. */
  function Scopes(permissions: seq<string>, asked: seq<string>): Option<seq<string>> {
    if MayHandOnAll(permissions, Trimmed(asked)) then Some(Distinct(Trimmed(asked))) else None
  }

  lemma ScopesStep(permissions: seq<string>, words: seq<string>, i: nat)
    requires i < |words|
    ensures MayHandOnAll(permissions, words[..i + 1]) == (MayHandOnAll(permissions, words[..i]) && MayHandOn(permissions, words[i]))
    ensures Distinct(words[..i + 1]) ==
            if words[i] in Distinct(words[..i]) then Distinct(words[..i]) else Distinct(words[..i]) + [words[i]]
    ensures MayHandOnAll(permissions, words) ==> MayHandOn(permissions, words[i])
  {
    assert words[..i + 1][..i] == words[..i];
    assert words[..i + 1][i] == words[i];
    assert forall j :: 0 <= j < i ==> words[..i + 1][j] == words[..i][j];
  }

  method CheckScopes(permissions: seq<string>, asked: seq<string>) returns (scopes: Option<seq<string>>)
    ensures scopes == Scopes(permissions, asked)
  {
    ghost var words := Trimmed(asked);
    var seen: set<string>, kept: seq<string> := {}, [];
    for i := 0 to |asked|
      invariant MayHandOnAll(permissions, words[..i])
      invariant kept == Distinct(words[..i])
      invariant forall x :: x in seen <==> x in kept
    {
      var scope := Trim(asked[i]);
      assert scope == words[i];
      ScopesStep(permissions, words, i);
      if !MayHandOn(permissions, scope) {
        return None;
      }
      if scope !in seen {
        seen := seen + {scope};
        kept := kept + [scope];
      }
    }
    assert words[..|asked|] == words;
    return Some(kept);
  }

  lemma OneScope(permissions: seq<string>, scope: string)
    requires MayHandOn(permissions, scope) && Trim(scope) == scope
    ensures Scopes(permissions, [scope]) == Some([scope])
  {
    var words := Trimmed([scope]);
    assert words == [scope];
    assert words[..0] == [] && words[0] == scope;
    assert Distinct([]) == [];
    assert Distinct(words) == [scope];
  }

  function ReadWords(permissions: seq<string>): (r: seq<string>)
    ensures forall x :: x in r <==> x in permissions && HasSuffix(x, ".read")
  {
    if permissions == [] then []
    else
      assert forall x :: x in permissions <==> x in permissions[..|permissions| - 1] || x == permissions[|permissions| - 1];
      ReadWords(permissions[..|permissions| - 1]) +
      (if HasSuffix(permissions[|permissions| - 1], ".read") then [permissions[|permissions| - 1]] else [])
  }

  /** What a key is given when its creator names nothing. */
  function DefaultScopes(permissions: seq<string>): seq<string> {
    if Allows(permissions, "*.read") then ["*.read"] else ReadWords(permissions)
  }

  method DefaultsOf(permissions: seq<string>) returns (scopes: seq<string>)
    ensures scopes == DefaultScopes(permissions)
  {
    if Allows(permissions, "*.read") {
      return ["*.read"];
    }
    scopes := [];
    for i := 0 to |permissions|
      invariant scopes == ReadWords(permissions[..i])
    {
      assert permissions[..i + 1][..i] == permissions[..i];
      if HasSuffix(permissions[i], ".read") {
        scopes := scopes + [permissions[i]];
      }
    }
    assert permissions[..|permissions|] == permissions;
  }

  /** With words stored trimmed, as a role's are, the default is never an escalation. */
  lemma DefaultIsNeverRefused(permissions: seq<string>)
    requires forall i :: 0 <= i < |permissions| ==> Trim(permissions[i]) == permissions[i] && permissions[i] != ""
    ensures Scopes(permissions, DefaultScopes(permissions)).Some?
  {
    if Allows(permissions, "*.read") {
      StarReadIsGranted(permissions, "*.read");
    } else {
      OwnWordsAreGranted(permissions, ReadWords(permissions));
    }
  }

  lemma DefaultOnlyReads(permissions: seq<string>, scope: string)
    requires scope in DefaultScopes(permissions)
    ensures HasSuffix(scope, ".read")
  {
  }

  lemma StarReadIsGranted(permissions: seq<string>, star: string)
    requires star == "*.read" && Allows(permissions, star)
    ensures Scopes(permissions, [star]).Some?
  {
    TrimKeeps(star);
    OneScope(permissions, star);
  }

  lemma OwnWordsAreGranted(permissions: seq<string>, asked: seq<string>)
    requires forall i :: 0 <= i < |permissions| ==> Trim(permissions[i]) == permissions[i] && permissions[i] != ""
    requires forall x :: x in asked ==> x in permissions
    ensures Scopes(permissions, asked).Some?
  {
    forall i | 0 <= i < |asked| ensures MayHandOn(permissions, Trimmed(asked)[i]) {
      assert asked[i] in permissions;
      var j :| 0 <= j < |permissions| && permissions[j] == asked[i];
      assert Matches(permissions[j], asked[i]);
    }
  }

  lemma TrimKeeps(s: string)
    requires s != "" && !IsSpace(s[0]) && !IsSpace(s[|s| - 1])
    ensures Trim(s) == s
  {
  }

  // The tables.

  const DAY := 24 * 60 * 60

  /** The words of the roles, one after the other. */
  function Listed<T>(words: map<nat, seq<T>>, roles: seq<nat>): seq<T> {
    if roles == [] then []
    else (if roles[0] in words then words[roles[0]] else []) + Listed(words, roles[1..])
  }

  lemma {:induction false} ListedWithin<T>(words: map<nat, seq<T>>, roles: seq<nat>, good: iset<T>)
    requires forall role, x :: role in words && x in words[role] ==> x in good
    ensures forall x :: x in Listed(words, roles) ==> x in good
  {
    if roles != [] {
      ListedWithin(words, roles[1..], good);
    }
  }

  lemma ListedIsTame(words: map<nat, seq<string>>, roles: seq<nat>)
    requires forall role :: role in words ==> Tame(words[role])
    ensures Tame(Listed(words, roles))
  {
    ListedWithin(words, roles, iset word | WordTame(word));
  }

  lemma ScopesAreWithinGrant(permissions: seq<string>, asked: seq<string>)
    requires Scopes(permissions, asked).Some?
    ensures forall x :: x in Scopes(permissions, asked).value ==> x != "" && Allows(permissions, x)
  {
  }

  /** The trimmed list may be written onto a role. */
  predicate AllReach(words: seq<string>, codes: set<string>) {
    forall i :: 0 <= i < |words| ==> words[i] != "" && Reaches(words[i], codes)
  }

  lemma AllReachStep(words: seq<string>, codes: set<string>, i: nat)
    requires i < |words|
    ensures AllReach(words[..i + 1], codes) == (AllReach(words[..i], codes) && words[i] != "" && Reaches(words[i], codes))
    ensures AllReach(words, codes) ==> AllReach(words[..i + 1], codes)
  {
    assert words[..i + 1] == words[..i] + [words[i]];
  }

  method CheckWords(asked: seq<string>, codes: set<string>) returns (cleaned: Option<seq<string>>)
    ensures cleaned == if AllReach(Trimmed(asked), codes) then Some(Trimmed(asked)) else None
  {
    ghost var words := Trimmed(asked);
    var kept: seq<string> := [];
    for i := 0 to |asked|
      invariant kept == words[..i] && AllReach(words[..i], codes)
    {
      var word := Trim(asked[i]);
      assert word == words[i];
      AllReachStep(words, codes, i);
      if word == "" || !Reaches(word, codes) {
        return None;
      }
      kept := kept + [word];
    }
    assert words[..|asked|] == words;
    return Some(kept);
  }

  lemma TrimmedWordIsAccepted(asked: string)
    requires Trim(asked) != "" && GrantsSomething(Trim(asked))
    ensures WordAccepted(Trim(asked))
  {
    TrimKeeps(Trim(asked));
  }

  lemma TrimmedIsAccepted(asked: seq<string>)
    requires AllReach(Trimmed(asked), Codes())
    ensures Accepted(Trimmed(asked))
  {
    var words := Trimmed(asked);
    forall word | word in words ensures WordAccepted(word) {
      var i :| 0 <= i < |words| && words[i] == word;
      TrimmedWordIsAccepted(asked[i]);
    }
  }

  /** An api_keys row. grantedBy is history: the permissions of the principal the scopes were first cut from. */
  datatype Key = Key(user: nat, scopes: seq<string>, expires: int, revoked: bool, grantedBy: seq<string>)

  datatype Answer = Created | ValidationError | ScopeEscalation

  ghost predicate WithinGrant(key: Key) {
    forall scope :: scope in key.scopes ==> Allows(key.grantedBy, scope)
  }

  /** What a key carries now: its stored scopes, cut down to what its account's roles grant today. */
  function Carries(key: Key, rolesNow: seq<string>): seq<string> { Intersect(key.scopes, rolesNow) }

  /** No key allows more than both lists behind it, each of the two read as a condition on the list alone. */
  lemma KeyIsBounded(key: Key, rolesNow: seq<string>, wanted: string)
    requires WithinGrant(key) && Allows(Carries(key, rolesNow), wanted)
    ensures Allows(key.scopes, wanted)
    ensures Clean(key.grantedBy) ==> Allows(key.grantedBy, wanted)
    ensures Clean(rolesNow) ==> Allows(rolesNow, wanted)
  {
    IntersectAllows(key.scopes, rolesNow, wanted);
    var i :| 0 <= i < |key.scopes| && Matches(key.scopes[i], wanted);
    assert key.scopes[i] in key.scopes;
    SoundExactly(key.grantedBy);
  }

  /** No key its creator could ask for allows a word the creator lacks. */
  ghost predicate CreatesNothingMore(permissions: seq<string>) {
    forall asked, wanted ::
      Scopes(permissions, asked).Some? && Allows(Scopes(permissions, asked).value, wanted) ==> Allows(permissions, wanted)
  }

  /** The creator's own list decides it, by a condition that can be read off the list. */
  lemma CreatesNothingMoreExactly(permissions: seq<string>)
    ensures CreatesNothingMore(permissions) <==> Clean(permissions)
  {
    SoundExactly(permissions);
    if Clean(permissions) {
      forall asked, wanted |
        Scopes(permissions, asked).Some? && Allows(Scopes(permissions, asked).value, wanted)
        ensures Allows(permissions, wanted)
      {
        var scopes := Scopes(permissions, asked).value;
        var i :| 0 <= i < |scopes| && Matches(scopes[i], wanted);
        assert scopes[i] in Trimmed(asked);
        var j :| 0 <= j < |asked| && Trimmed(asked)[j] == scopes[i];
      }
    } else {
      var i :| 0 <= i < |permissions| && TwoEnded(permissions[i]);
      var scope, wanted := EscapeOf(permissions, i);
      OneScope(permissions, scope);
      assert scope in [scope];
      AllowsThrough([scope], scope, wanted);
      assert Allows(Scopes(permissions, [scope]).value, wanted);
    }
  }

  lemma EscapeOf(permissions: seq<string>, i: nat) returns (scope: string, wanted: string)
    requires i < |permissions| && TwoEnded(permissions[i]) && "*" !in permissions
    ensures MayHandOn(permissions, scope) && Trim(scope) == scope
    ensures Matches(scope, wanted) && !Allows(permissions, wanted)
  {
    var a, n := permissions[i], Longest(permissions) + 1;
    var q := Repeat('q', n);
    scope, wanted := Middle(a, q), End(a, q, q);
    TwoEndedHandsOnTooMuch(a, q, q);
    assert scope[0] == '*' && scope[|scope| - 1] == 'q';
    TrimKeeps(scope);
    forall j | 0 <= j < |permissions| ensures !Matches(permissions[j], wanted) {
      assert permissions[j] in permissions;
      OutOfReach(permissions[j], a, n);
    }
  }

  lemma StarDotStarMatches()
    ensures Matches("*.*", "*.read") && Matches("*.read", "contract.read") && !Matches("*.*", "contract.read")
  {
    assert "*.*"[..2] == "*.";
    assert HasSuffix("contract.read", "*.read"[1..]);
    LastOfSuffix("contract.read", "*.*"[1..]);
    assert "*.*"[..2][0] == '*';
  }

  lemma AllowsOne(got: string, wanted: string)
    ensures Allows([got], wanted) <==> Matches(got, wanted)
  {
    assert Matches(got, wanted) ==> Matches([got][0], wanted);
  }

  /** The smallest case: a role given "*.*" can cut a key reading every contract, which the role itself cannot. */
  lemma StarDotStarEscapes(star: string, read: string, contract: string)
    requires star == "*.*" && read == "*.read" && contract == "contract.read"
    ensures Accepted([star]) && Scopes([star], [read]) == Some([read])
    ensures Allows([read], contract) && !Allows([star], contract)
  {
    StarDotStarMatches();
    TwoEndedIsAccepted(star);
    TrimKeeps(read);
    AllowsOne(star, read);
    AllowsOne(star, contract);
    AllowsOne(read, contract);
    OneScope([star], read);
  }

  lemma TwoEndedIsAccepted(star: string)
    requires star == "*.*"
    ensures Accepted([star])
  {
    AcceptedTwoEnded(star);
    TrimKeeps(star);
  }

  /** The words of a token's scope claim, already split at white space, that are permissions here. */
  function ScopeWords(fields: seq<string>): (words: seq<string>)
    ensures forall x :: x in words <==> x in fields && GrantsSomething(x)
  {
    if fields == [] then []
    else
      var front, last := fields[..|fields| - 1], fields[|fields| - 1];
      assert forall x :: x in fields <==> x in front || x == last;
      ScopeWords(front) + if GrantsSomething(last) then [last] else []
  }

  /** What a single sign-on token carries: the administrator's list, narrowed by the token if it names anything, then by the roles. */
  function TokenCarries(listed: seq<string>, fields: seq<string>, rolesNow: seq<string>): seq<string> {
    var words := ScopeWords(fields);
    Intersect(if words == [] then listed else Intersect(listed, words), rolesNow)
  }

  lemma TokenIsBounded(listed: seq<string>, fields: seq<string>, rolesNow: seq<string>, wanted: string)
    requires Allows(TokenCarries(listed, fields, rolesNow), wanted)
    ensures Allows(listed, wanted)
    ensures ScopeWords(fields) != [] && Clean(ScopeWords(fields)) ==> Allows(ScopeWords(fields), wanted)
    ensures Clean(rolesNow) ==> Allows(rolesNow, wanted)
  {
    var words := ScopeWords(fields);
    IntersectAllows(listed, words, wanted);
    IntersectAllows(if words == [] then listed else Intersect(listed, words), rolesNow, wanted);
  }

  // The role and key tables.

  /** words holds each role's list, held each account's roles; system roles are the seeded ones. */
  datatype Tables = Tables(words: map<nat, seq<string>>, system: set<nat>, held: map<nat, seq<nat>>, keys: map<nat, Key>)

  /** What the account's roles grant today. */
  function RolesNow(t: Tables, user: nat): seq<string> {
    if user in t.held then Listed(t.words, t.held[user]) else []
  }

  /** permissions is what the calling principal carries, however it signed in. */
  datatype Event =
    | CreateRole(role: nat, listed: seq<string>)
    | UpdateRole(role: nat, change: Option<seq<string>>)
    | Assign(user: nat, roles: seq<nat>)
    | CreateKey(id: nat, user: nat, permissions: seq<string>, asked: seq<string>, days: int, now: int)
    | RotateKey(replaced: nat, id: nat, user: nat)
    | RevokeKey(id: nat, user: nat)

  predicate ListAnswered(listed: seq<string>) { AllReach(Trimmed(listed), Codes()) }

  function KeyAnswer(permissions: seq<string>, asked: seq<string>, days: int): Answer {
    var wanted := if asked == [] then DefaultScopes(permissions) else asked;
    if wanted == [] then ValidationError
    else if Scopes(permissions, wanted).None? then ScopeEscalation
    else if 1 <= days <= 365 then Created
    else ValidationError
  }

  function NewKey(user: nat, permissions: seq<string>, asked: seq<string>, days: int, now: int): Key
    requires KeyAnswer(permissions, asked, days) == Created
  {
    var wanted := if asked == [] then DefaultScopes(permissions) else asked;
    Key(user, Scopes(permissions, wanted).value, now + days * DAY, false, permissions)
  }

  predicate IsActive(t: Tables, id: nat, user: nat) { id in t.keys && t.keys[id].user == user && !t.keys[id].revoked }

  /** The roles named that exist, as the INSERT ... SELECT finds them. */
  function Existing(words: map<nat, seq<string>>, roles: seq<nat>): (r: seq<nat>)
    ensures forall x :: x in r <==> x in roles && x in words
  {
    if roles == [] then []
    else
      var front, last := roles[..|roles| - 1], roles[|roles| - 1];
      assert forall x :: x in roles <==> x in front || x == last;
      Existing(words, front) + if last in words then [last] else []
  }

  /** A refused request changes nothing. */
  function Next(t: Tables, e: Event): Tables {
    match e
    case CreateRole(role, listed) =>
      if role in t.words || !ListAnswered(listed) then t else t.(words := t.words[role := Trimmed(listed)])
    case UpdateRole(role, change) =>
      if change.None? || role !in t.words || role in t.system || !ListAnswered(change.value) then t
      else t.(words := t.words[role := Trimmed(change.value)])
    case Assign(user, roles) => t.(held := t.held[user := Existing(t.words, roles)])
    case CreateKey(id, user, permissions, asked, days, now) =>
      if id in t.keys || KeyAnswer(permissions, asked, days) != Created then t
      else t.(keys := t.keys[id := NewKey(user, permissions, asked, days, now)])
    case RotateKey(replaced, id, user) =>
      if id in t.keys || !IsActive(t, replaced, user) then t
      else t.(keys := t.keys[replaced := t.keys[replaced].(revoked := true)][id := t.keys[replaced]])
    case RevokeKey(id, user) =>
      if !IsActive(t, id, user) then t else t.(keys := t.keys[id := t.keys[id].(revoked := true)])
  }

  function After(start: Tables, run: seq<Event>): Tables {
    if run == [] then start else Next(After(start, run[..|run| - 1]), run[|run| - 1])
  }

  /** No key has been cut. Whatever roles are stored may be older than the check of their lists, and accounts may hold them. */
  predicate Starts(t: Tables) { t.keys == map[] }

  predicate AllTame(t: Tables) { forall role :: role in t.words ==> Tame(t.words[role]) }

  ghost predicate WellKept(t: Tables) { forall id :: id in t.keys ==> WithinGrant(t.keys[id]) }

  lemma RolesAreTame(t: Tables, user: nat)
    requires AllTame(t)
    ensures Tame(RolesNow(t, user))
  {
    if user in t.held {
      ListedIsTame(t.words, t.held[user]);
    }
  }

  lemma AnsweredIsTame(listed: seq<string>)
    requires ListAnswered(listed)
    ensures Tame(Trimmed(listed))
  {
    hide Tame, Trimmed, Accepted, AllReach, Codes;
    TrimmedIsAccepted(listed);
    AcceptedIsTame(Trimmed(listed));
  }

  lemma StepKeepsTame(t: Tables, e: Event)
    requires AllTame(t)
    ensures AllTame(Next(t, e))
  {
    hide Tame, ListAnswered, Trimmed, NewKey, KeyAnswer, Existing;
    match e
    case CreateRole(_, listed) => if ListAnswered(listed) { AnsweredIsTame(listed); }
    case UpdateRole(_, change) => if change.Some? && ListAnswered(change.value) { AnsweredIsTame(change.value); }
    case _ =>
  }

  lemma {:induction false} RunKeepsTame(start: Tables, run: seq<Event>)
    requires AllTame(start)
    ensures AllTame(After(start, run))
  {
    hide Next, AllTame;
    if run != [] {
      RunKeepsTame(start, run[..|run| - 1]);
      StepKeepsTame(After(start, run[..|run| - 1]), run[|run| - 1]);
    }
  }

  lemma NewKeyIsWithinGrant(user: nat, permissions: seq<string>, asked: seq<string>, days: int, now: int)
    requires KeyAnswer(permissions, asked, days) == Created
    ensures WithinGrant(NewKey(user, permissions, asked, days, now))
  {
    hide DefaultScopes;
    ScopesAreWithinGrant(permissions, if asked == [] then DefaultScopes(permissions) else asked);
  }

  lemma StepKeepsSound(t: Tables, e: Event)
    requires WellKept(t)
    ensures WellKept(Next(t, e))
  {
    hide ListAnswered, Trimmed, NewKey, KeyAnswer, Existing, WithinGrant;
    match e
    case CreateKey(_, user, permissions, asked, days, now) =>
      if KeyAnswer(permissions, asked, days) == Created { NewKeyIsWithinGrant(user, permissions, asked, days, now); }
    case RotateKey(replaced, _, _) =>
      if replaced in t.keys { RevokedIsWithinGrant(t.keys[replaced]); }
    case RevokeKey(id, _) =>
      if id in t.keys { RevokedIsWithinGrant(t.keys[id]); }
    case _ =>
  }

  lemma RevokedIsWithinGrant(key: Key)
    requires WithinGrant(key)
    ensures WithinGrant(key.(revoked := true))
  {
  }

  lemma {:induction false} RunKeepsSound(start: Tables, run: seq<Event>)
    requires Starts(start)
    ensures WellKept(After(start, run))
  {
    hide Next;
    if run != [] {
      RunKeepsSound(start, run[..|run| - 1]);
      StepKeepsSound(After(start, run[..|run| - 1]), run[|run| - 1]);
    }
  }

  /** A rotation moves scopes, expiry and account to the new key and stops the old; no other key is touched. */
  lemma RotationMoves(t: Tables, replaced: nat, id: nat, user: nat, other: nat)
    requires id !in t.keys && IsActive(t, replaced, user) && other != replaced && other != id
    ensures var u := Next(t, RotateKey(replaced, id, user));
            && id in u.keys && u.keys[id] == t.keys[replaced]
            && replaced in u.keys && u.keys[replaced] == t.keys[replaced].(revoked := true)
            && (other in u.keys <==> other in t.keys) && (other in t.keys ==> u.keys[other] == t.keys[other])
  {
  }

  lemma RevokedMeans(t: Tables, id: nat, user: nat)
    ensures Next(t, RevokeKey(id, user))
            == if IsActive(t, id, user) then t.(keys := t.keys[id := t.keys[id].(revoked := true)]) else t
  {
    hide NewKey, KeyAnswer, ListAnswered, Trimmed, Existing;
  }

  /** The k-th event cut the scopes the key holds, from what its user was allowed then. */
  predicate CutBy(run: seq<Event>, k: nat, key: Key)
    requires k < |run|
  {
    && run[k].CreateKey? && run[k].user == key.user && run[k].permissions == key.grantedBy
    && KeyAnswer(run[k].permissions, run[k].asked, run[k].days) == Created
    && NewKey(key.user, run[k].permissions, run[k].asked, run[k].days, run[k].now) == key.(revoked := false)
  }

  /** However often it was rotated, a key is the one some request of its user created. */
  lemma {:induction false} KeyWasCut(start: Tables, run: seq<Event>, id: nat) returns (k: nat)
    requires Starts(start) && id in After(start, run).keys
    ensures k < |run| && CutBy(run, k, After(start, run).keys[id])
  {
    hide NewKey, KeyAnswer, ListAnswered;
    var front, e := run[..|run| - 1], run[|run| - 1];
    var before := After(start, front);
    if e.CreateKey? && e.id == id && id !in before.keys {
      k := |run| - 1;
      NewKeyParts(e.user, e.permissions, e.asked, e.days, e.now);
    } else if e.RotateKey? && e.id == id && id !in before.keys {
      k := KeyWasCut(start, front, e.replaced);
    } else {
      k := KeyWasCut(start, front, id);
    }
  }

  lemma NewKeyParts(user: nat, permissions: seq<string>, asked: seq<string>, days: int, now: int)
    requires KeyAnswer(permissions, asked, days) == Created
    ensures var key := NewKey(user, permissions, asked, days, now);
            key.user == user && key.grantedBy == permissions && !key.revoked
  {
  }

  /**
   * After every run of role creation, role edits, assignments, key creation, rotation and revocation, a key allows
   * nothing its creator was not allowed when the scopes were cut, if the creator's list was clean then, and nothing
   * its account's roles refuse now, if their words are clean. If no stored list was wilder than "*.*" at the start, they
   * are clean unless they hold "*.*" without "*".
   */
  lemma KeysAreBounded(start: Tables, run: seq<Event>, id: nat, wanted: string) returns (k: nat)
    requires Starts(start) && id in After(start, run).keys
    requires var t := After(start, run);
             Allows(Carries(t.keys[id], RolesNow(t, t.keys[id].user)), wanted)
    ensures k < |run| && CutBy(run, k, After(start, run).keys[id])
    ensures Clean(run[k].permissions) ==> Allows(run[k].permissions, wanted)
    ensures var rolesNow := RolesNow(After(start, run), After(start, run).keys[id].user);
            && (Clean(rolesNow) ==> Allows(rolesNow, wanted))
            && (AllTame(start) ==> (Clean(rolesNow) <==> "*" in rolesNow || "*.*" !in rolesNow))
  {
    hide Next, Clean, NewKey, KeyAnswer, AllTame;
    var t := After(start, run);
    RunKeepsSound(start, run);
    k := KeyWasCut(start, run, id);
    var rolesNow := RolesNow(t, t.keys[id].user);
    KeyIsBounded(t.keys[id], rolesNow, wanted);
    if AllTame(start) {
      RunKeepsTame(start, run);
      RolesAreTame(t, t.keys[id].user);
      TameIsCleanExactly(rolesNow);
    }
  }

  /** The tables as the handlers keep them. A role's list is written only through CheckWords, a key's only through CheckScopes. */
  class Accounts {
    var words: map<nat, seq<string>>
    var system: set<nat>
    var held: map<nat, seq<nat>>
    var keys: map<nat, Key>

    function View(): Tables
      reads this
    {
      Tables(words, system, held, keys)
    }

    ghost predicate Valid()
      reads this
    {
      WellKept(View())
    }

    /** stored holds the roles of the deployment, of which those in seeded came with the migrations. */
    constructor (stored: map<nat, seq<string>>, seeded: set<nat>, held: map<nat, seq<nat>>)
      ensures Valid() && Starts(View()) && View() == Tables(stored, seeded, held, map[])
    {
      words, system, this.held, keys := stored, seeded, held, map[];
    }

    method CreateRole(role: nat, listed: seq<string>) returns (answer: Answer)
      requires Valid() && role !in words
      modifies `words
      ensures Valid() && View() == Next(old(View()), Event.CreateRole(role, listed))
      ensures answer == if AllReach(Trimmed(listed), Codes()) then Created else ValidationError
    {
      hide WellKept, Trimmed, Codes, AllReach;
      StepKeepsSound(View(), Event.CreateRole(role, listed));
      var cleaned := CheckWords(listed, Codes());
      if cleaned.None? {
        return ValidationError;
      }
      words := words[role := cleaned.value];
      return Created;
    }

    method UpdateRole(role: nat, change: Option<seq<string>>) returns (answer: Answer)
      requires Valid()
      modifies `words
      ensures Valid() && View() == Next(old(View()), Event.UpdateRole(role, change))
      ensures answer == if change.Some? && !AllReach(Trimmed(change.value), Codes()) then ValidationError else Created
    {
      hide WellKept, Trimmed, Codes, AllReach;
      StepKeepsSound(View(), Event.UpdateRole(role, change));
      if change.None? {
        return Created;
      }
      var cleaned := CheckWords(change.value, Codes());
      if cleaned.None? {
        return ValidationError;
      }
      if role in words && role !in system {
        words := words[role := cleaned.value];
      }
      return Created;
    }

    /** An account's roles are replaced by those of the ones named that exist. */
    method AssignRoles(user: nat, roles: seq<nat>)
      requires Valid()
      modifies `held
      ensures Valid() && View() == Next(old(View()), Assign(user, roles))
    {
      hide WellKept;
      StepKeepsSound(View(), Assign(user, roles));
      held := held[user := Existing(words, roles)];
    }

    /** permissions is what the calling principal carries, however it signed in. */
    method CreateKey(id: nat, user: nat, permissions: seq<string>, asked: seq<string>, days: int, now: int)
      returns (answer: Answer)
      requires Valid() && id !in keys
      modifies `keys
      ensures Valid() && View() == Next(old(View()), Event.CreateKey(id, user, permissions, asked, days, now))
      ensures answer == KeyAnswer(permissions, asked, days)
    {
      hide WellKept, Scopes, DefaultScopes;
      StepKeepsSound(View(), Event.CreateKey(id, user, permissions, asked, days, now));
      var wanted := asked;
      if asked == [] {
        wanted := DefaultsOf(permissions);
      }
      if wanted == [] {
        return ValidationError;
      }
      var scopes := CheckScopes(permissions, wanted);
      if scopes.None? {
        return ScopeEscalation;
      }
      if days < 1 || days > 365 {
        return ValidationError;
      }
      keys := keys[id := Key(user, scopes.value, now + days * DAY, false, permissions)];
      return Created;
    }

    /** The old key stops and the new one carries its scopes, its expiry and its history. */
    method RotateKey(replaced: nat, id: nat, user: nat) returns (done: bool)
      requires Valid() && id !in keys
      modifies `keys
      ensures Valid() && View() == Next(old(View()), Event.RotateKey(replaced, id, user))
      ensures done == old(IsActive(View(), replaced, user))
    {
      hide WellKept;
      StepKeepsSound(View(), Event.RotateKey(replaced, id, user));
      done := replaced in keys && keys[replaced].user == user && !keys[replaced].revoked;
      if done {
        var key := keys[replaced];
        keys := keys[replaced := key.(revoked := true)];
        keys := keys[id := key];
      }
    }

    method RevokeKey(id: nat, user: nat) returns (done: bool)
      requires Valid()
      modifies `keys
      ensures Valid() && View() == Next(old(View()), Event.RevokeKey(id, user))
      ensures done == old(IsActive(View(), id, user))
    {
      hide WellKept, Next;
      StepKeepsSound(View(), Event.RevokeKey(id, user));
      RevokedMeans(View(), id, user);
      done := id in keys && keys[id].user == user && !keys[id].revoked;
      if done {
        keys := keys[id := keys[id].(revoked := true)];
      }
    }

    /** What a request bearing the key may do. */
    method FromKey(id: nat, now: int, active: bool) returns (permissions: Option<seq<string>>)
      requires Valid()
      ensures permissions.Some? <==> id in keys && !keys[id].revoked && keys[id].expires > now && active
      ensures permissions.Some? ==> permissions.value == Carries(keys[id], RolesNow(View(), keys[id].user))
      ensures permissions.Some? && Clean(keys[id].grantedBy)
        ==> forall w :: Allows(permissions.value, w) ==> Allows(keys[id].grantedBy, w)
      ensures permissions.Some? && Clean(RolesNow(View(), keys[id].user))
        ==> forall w :: Allows(permissions.value, w) ==> Allows(RolesNow(View(), keys[id].user), w)
    {
      if id !in keys || keys[id].revoked || keys[id].expires <= now || !active {
        return None;
      }
      var key := keys[id];
      var rolesNow := RolesNow(View(), key.user);
      var carried := IntersectPermissions(key.scopes, rolesNow);
      forall w | Allows(carried, w)
        ensures Clean(key.grantedBy) ==> Allows(key.grantedBy, w)
        ensures Clean(rolesNow) ==> Allows(rolesNow, w)
      {
        KeyIsBounded(key, rolesNow, w);
      }
      return Some(carried);
    }
  }
}
