/** What the role and key handlers leave in the tables, row by row (internal/httpapi/admin.go, auth.go, mcpoauth.go). */
module ApiKeyOutcomes {
  import opened Common
  import opened Permissions
  import opened ApiKeys

  // What an account's roles grant.

  lemma {:induction false} ListedExactly<T>(words: map<nat, seq<T>>, roles: seq<nat>, w: T)
    ensures w in Listed(words, roles) <==> exists role :: role in roles && role in words && w in words[role]
  {
    if roles != [] {
      ListedExactly(words, roles[1..], w);
      assert forall role :: role in roles <==> role == roles[0] || role in roles[1..];
    }
  }

  /** An account is granted exactly the words of the roles it holds. */
  lemma RolesNowExactly(t: Tables, user: nat, w: string)
    ensures w in RolesNow(t, user) <==>
            user in t.held && exists role :: role in t.held[user] && role in t.words && w in t.words[role]
  {
    if user in t.held {
      ListedExactly(t.words, t.held[user], w);
    }
  }

  /** Some role the account holds has a word that allows the one wanted. */
  predicate HeldAllows(t: Tables, user: nat, wanted: string) {
    user in t.held && exists role :: role in t.held[user] && role in t.words
                                     && exists w :: w in t.words[role] && Matches(w, wanted)
  }

  lemma RolesAllowExactly(t: Tables, user: nat, wanted: string)
    ensures Allows(RolesNow(t, user), wanted) <==> HeldAllows(t, user, wanted)
  {
    var now := RolesNow(t, user);
    if Allows(now, wanted) {
      var i :| 0 <= i < |now| && Matches(now[i], wanted);
      RolesNowExactly(t, user, now[i]);
    }
    if HeldAllows(t, user, wanted) {
      var role :| role in t.held[user] && role in t.words && exists w :: w in t.words[role] && Matches(w, wanted);
      var w :| w in t.words[role] && Matches(w, wanted);
      RolesNowExactly(t, user, w);
    }
  }

  /** A key carries exactly those of its scopes that a word of a held role allows. */
  lemma CarriesExactly(t: Tables, key: Key, scope: string)
    ensures scope in Carries(key, RolesNow(t, key.user)) <==> scope in key.scopes && HeldAllows(t, key.user, scope)
  {
    RolesAllowExactly(t, key.user, scope);
  }

  lemma HasAWord(words: seq<string>)
    ensures words == [] || exists w :: w in words
  {
    if words != [] {
      assert words[0] in words;
    }
  }

  /** Once every role is taken from an account, each of its keys carries nothing, whatever happened before. */
  lemma NoRolesNothingCarried(start: Tables, run: seq<Event>, user: nat, id: nat)
    requires var t := After(start, run + [Assign(user, [])]); id in t.keys && t.keys[id].user == user
    ensures var t := After(start, run + [Assign(user, [])]); Carries(t.keys[id], RolesNow(t, user)) == []
  {
    assert (run + [Assign(user, [])])[..|run|] == run;
    var t := After(start, run + [Assign(user, [])]);
    assert t == Next(After(start, run), Assign(user, []));
    assert forall scope :: scope !in Carries(t.keys[id], RolesNow(t, user)) by {
      forall scope ensures scope !in Carries(t.keys[id], RolesNow(t, user)) {
        CarriesExactly(t, t.keys[id], scope);
      }
    }
    HasAWord(Carries(t.keys[id], RolesNow(t, user)));
  }

  /** No role the account holds has a word with wildcards at both ends, or one of them has "*". */
  predicate HeldClean(t: Tables, user: nat) {
    user in t.held ==>
      || (exists role :: role in t.held[user] && role in t.words && "*" in t.words[role])
      || (forall role :: role in t.held[user] && role in t.words ==> forall w :: w in t.words[role] ==> !TwoEnded(w))
  }

  /** After every run, what no role the account holds allows is refused to its keys, if the words held are clean. */
  lemma KeyNeedsARole(start: Tables, run: seq<Event>, id: nat, wanted: string)
    requires var t := After(start, run); id in t.keys && HeldClean(t, t.keys[id].user) && !HeldAllows(t, t.keys[id].user, wanted)
    ensures var t := After(start, run); !Allows(Carries(t.keys[id], RolesNow(t, t.keys[id].user)), wanted)
  {
    var t := After(start, run);
    var user, key := t.keys[id].user, t.keys[id];
    var now := RolesNow(t, user);
    RolesAllowExactly(t, user, wanted);
    IntersectAllows(key.scopes, now, wanted);
    HeldCleanIsClean(t, user);
  }

  lemma HeldCleanIsClean(t: Tables, user: nat)
    requires HeldClean(t, user)
    ensures Clean(RolesNow(t, user))
  {
    var now := RolesNow(t, user);
    if user in t.held {
      if exists role :: role in t.held[user] && role in t.words && "*" in t.words[role] {
        RolesNowExactly(t, user, "*");
      } else {
        forall i | 0 <= i < |now| ensures !TwoEnded(now[i]) {
          RolesNowExactly(t, user, now[i]);
        }
      }
    }
  }

  // What a role holds.

  /** Trimmed, every word of the list opens some door. */
  predicate EveryWordOpens(listed: seq<string>) {
    forall i :: 0 <= i < |listed| ==>
      Trim(listed[i]) != "" && exists code :: code in Codes() && Matches(Trim(listed[i]), code)
  }

  /** A role is written with the trimmed list if every word of it opens a door, and left alone otherwise; system roles always. */
  lemma RoleWritesExactly(t: Tables, role: nat, listed: seq<string>)
    ensures Next(t, CreateRole(role, listed))
            == if role !in t.words && EveryWordOpens(listed) then t.(words := t.words[role := Trimmed(listed)]) else t
    ensures Next(t, UpdateRole(role, Some(listed)))
            == if role in t.words && role !in t.system && EveryWordOpens(listed)
               then t.(words := t.words[role := Trimmed(listed)]) else t
    ensures Next(t, UpdateRole(role, None)) == t
  {
    hide Codes, Trim;
    var words := Trimmed(listed);
    assert ListAnswered(listed) <==> EveryWordOpens(listed) by {
      assert forall i :: 0 <= i < |listed| ==> words[i] == Trim(listed[i]);
    }
  }

  /** The four doors of each kind of object. */
  lemma ObjectDoors(objectType: string)
    requires objectType in {"contract", "purchase_request", "rfq", "rfp", "purchase_order", "delivery"}
             || objectType in {"inspection", "quality", "issue", "invoice", "payment"}
    ensures objectType + ".read" in Codes() && objectType + ".create" in Codes()
    ensures objectType + ".update" in Codes() && objectType + ".amount.read" in Codes()
  {
    assert objectType in OBJECT_TYPES;
    var i :| 0 <= i < |OBJECT_TYPES| && OBJECT_TYPES[i] == objectType;
    assert RouteCodes(OBJECT_TYPES[i])[0] == objectType + ".amount.read" && RouteCodes(OBJECT_TYPES[i])[1] == objectType + ".create";
    assert RouteCodes(OBJECT_TYPES[i])[2] == objectType + ".read" && RouteCodes(OBJECT_TYPES[i])[3] == objectType + ".update";
  }

  /** An account holds exactly those of the roles named that exist, and no other account's roles move. */
  lemma AssignsExactly(t: Tables, user: nat, roles: seq<nat>, role: nat)
    ensures var u := Next(t, Assign(user, roles));
            && user in u.held && (role in u.held[user] <==> role in roles && role in t.words)
            && u == t.(held := u.held) && u.held == t.held[user := u.held[user]]
  {
  }

  // What a key is cut with.

  /** Trimmed, every word asked for is one the creator is allowed. */
  predicate EveryWordAllowed(permissions: seq<string>, asked: seq<string>) {
    forall i :: 0 <= i < |asked| ==> Trim(asked[i]) != "" && Allows(permissions, Trim(asked[i]))
  }

  lemma ScopesExactly(permissions: seq<string>, asked: seq<string>, scope: string)
    ensures Scopes(permissions, asked).Some? <==> EveryWordAllowed(permissions, asked)
    ensures Scopes(permissions, asked).Some? ==>
              (scope in Scopes(permissions, asked).value <==> exists i :: 0 <= i < |asked| && Trim(asked[i]) == scope)
  {
    hide Trim, Allows;
    var words := Trimmed(asked);
    assert forall i :: 0 <= i < |asked| ==> words[i] == Trim(asked[i]);
  }

  /** Distinct words keep the order in which they first appear. */
  lemma {:induction false} DistinctInOrder(words: seq<string>, i: nat, j: nat) returns (p: nat)
    requires i < j < |Distinct(words)|
    ensures p < |words| && words[p] == Distinct(words)[i] && Distinct(words)[j] !in words[..p + 1]
  {
    var front, last := words[..|words| - 1], words[|words| - 1];
    if j < |Distinct(front)| {
      p := DistinctInOrder(front, i, j);
      assert front[..p + 1] == words[..p + 1];
    } else {
      assert Distinct(front)[i] in front;
      p :| 0 <= p < |front| && front[p] == Distinct(front)[i];
      assert forall x :: x in words[..p + 1] ==> x in front;
    }
  }

  /** Asked for nothing, a key gets the reading word for everything if the creator is allowed it, else the creator's reading words. */
  lemma DefaultsExactly(permissions: seq<string>, scope: string)
    ensures scope in DefaultScopes(permissions) <==>
            if exists i :: 0 <= i < |permissions| && Matches(permissions[i], "*.read") then scope == "*.read"
            else scope in permissions && exists front :: scope == front + ".read"
  {
    SuffixExactly(scope, ".read");
  }

  /** A request for a key is refused for the first reason that applies; what it leaves is the key described, and no other moves. */
  lemma CutsExactly(t: Tables, id: nat, user: nat, permissions: seq<string>, asked: seq<string>, days: int, now: int)
    requires id !in t.keys && asked != []
    ensures var answer, u := KeyAnswer(permissions, asked, days), Next(t, CreateKey(id, user, permissions, asked, days, now));
            && (answer == ScopeEscalation <==> !EveryWordAllowed(permissions, asked))
            && (answer == ValidationError <==> EveryWordAllowed(permissions, asked) && !(1 <= days <= 365))
            && (answer == Created <==> EveryWordAllowed(permissions, asked) && 1 <= days <= 365)
            && (answer != Created ==> u == t)
            && (answer == Created ==>
                  && id in u.keys && u == t.(keys := t.keys[id := u.keys[id]])
                  && u.keys[id].user == user && !u.keys[id].revoked && u.keys[id].grantedBy == permissions
                  && u.keys[id].expires == now + days * 86400
                  && forall scope :: scope in u.keys[id].scopes <==> exists i :: 0 <= i < |asked| && Trim(asked[i]) == scope)
  {
    hide Trim, Allows, EveryWordAllowed;
    ScopesExactly(permissions, asked, "");
    hide Scopes;
    if KeyAnswer(permissions, asked, days) == Created {
      forall scope ensures scope in Scopes(permissions, asked).value <==> exists i :: 0 <= i < |asked| && Trim(asked[i]) == scope {
        ScopesExactly(permissions, asked, scope);
      }
    }
  }

  /** Asked for nothing, the key is cut from the defaults, if there are any. */
  lemma CutsDefaultsExactly(t: Tables, id: nat, user: nat, permissions: seq<string>, days: int, now: int)
    requires id !in t.keys && forall i :: 0 <= i < |permissions| ==> Trim(permissions[i]) == permissions[i] && permissions[i] != ""
    ensures var answer, u := KeyAnswer(permissions, [], days), Next(t, CreateKey(id, user, permissions, [], days, now));
            && (answer == Created <==> DefaultScopes(permissions) != [] && 1 <= days <= 365)
            && (answer != Created ==> answer == ValidationError && u == t)
            && (answer == Created ==>
                  && id in u.keys && u.keys[id].user == user && u.keys[id].expires == now + days * 86400
                  && Some(u.keys[id].scopes) == Scopes(permissions, DefaultScopes(permissions)))
  {
    hide DefaultScopes, Scopes, Trim;
    DefaultIsNeverRefused(permissions);
  }

  /** Only its owner revokes a key, and only an active one; nothing else of the tables moves. */
  lemma RevokesExactly(t: Tables, id: nat, user: nat)
    ensures Next(t, RevokeKey(id, user))
            == if id in t.keys && t.keys[id].user == user && !t.keys[id].revoked
               then t.(keys := t.keys[id := t.keys[id].(revoked := true)]) else t
  {
    hide NewKey, KeyAnswer, ListAnswered, Trimmed, Existing;
  }

  /** Only its owner rotates a key, and only an active one; the new key is the old one as it was, which stops. */
  lemma RotatesExactly(t: Tables, replaced: nat, id: nat, user: nat)
    requires id !in t.keys
    ensures Next(t, RotateKey(replaced, id, user))
            == if replaced in t.keys && t.keys[replaced].user == user && !t.keys[replaced].revoked
               then t.(keys := t.keys[replaced := t.keys[replaced].(revoked := true)][id := t.keys[replaced]]) else t
  {
    hide NewKey, KeyAnswer, ListAnswered, Trimmed, Existing;
  }

  /** A token carries exactly the administrator's words that the token's own permissions, if it names any, and the roles allow. */
  lemma TokenExactly(listed: seq<string>, fields: seq<string>, rolesNow: seq<string>, w: string)
    ensures var names := exists f :: f in fields && GrantsSomething(f);
            w in TokenCarries(listed, fields, rolesNow) <==>
            && w in listed && (exists i :: 0 <= i < |rolesNow| && Matches(rolesNow[i], w))
            && (names ==> exists f :: f in fields && GrantsSomething(f) && Matches(f, w))
  {
    hide GrantsSomething, Matches;
    var words := ScopeWords(fields);
    if exists f :: f in fields && GrantsSomething(f) {
      var f :| f in fields && GrantsSomething(f);
      assert f in words;
    } else {
      HasAWord(words);
    }
    if Allows(words, w) {
      var i :| 0 <= i < |words| && Matches(words[i], w);
      assert words[i] in words;
    }
  }
}
