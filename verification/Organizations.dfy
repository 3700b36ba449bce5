/** The organisation tree, its materialised path, and the data scopes cut along it (internal/httpapi/admin.go, rows.go). */
module Organizations {
  import opened Common

  // LIKE.

  /** SQL's LIKE with its default escape character. */
  predicate Like(s: string, pattern: string)
    decreases |pattern|
  {
    if pattern == "" then s == ""
    else if pattern[0] == '%' then exists k :: 0 <= k <= |s| && Like(s[k..], pattern[1..])
    else if pattern[0] == '\\' && |pattern| > 1 then s != "" && s[0] == pattern[1] && Like(s[1..], pattern[2..])
    else s != "" && (pattern[0] == '_' || s[0] == pattern[0]) && Like(s[1..], pattern[1..])
  }

  predicate NoWildcard(s: string) { '%' !in s && '_' !in s && '\\' !in s }

  lemma LikeAnything(s: string)
    ensures Like(s, "%")
  {
    assert s[|s|..] == "" && "%"[1..] == "";
    assert Like(s[|s|..], "%"[1..]);
  }

  /** A pattern of plain characters and a final percent sign asks for a prefix. */
  lemma {:induction false} LikeIsPrefix(s: string, plain: string)
    requires NoWildcard(plain)
    ensures Like(s, plain + "%") <==> plain <= s
  {
    var pattern := plain + "%";
    if plain == "" {
      assert pattern == "%";
      LikeAnything(s);
    } else {
      assert pattern[1..] == plain[1..] + "%";
      assert pattern[0] == plain[0] && plain[0] in plain;
      if s != "" {
        LikeIsPrefix(s[1..], plain[1..]);
        assert plain <= s <==> plain[0] == s[0] && plain[1..] <= s[1..];
      }
    }
  }

  // The tree.

  /** An organizations row. */
  datatype Row = Row(parent: Option<string>, path: string)

  /** A uuid as text: not empty, and free of the path's separator and of LIKE's own characters. */
  predicate IsId(id: string) { id != "" && '/' !in id && NoWildcard(id) }

  function FullPath(rows: map<string, Row>, id: string): string
    requires id in rows
  {
    rows[id].path + id + "/"
  }

  /** Every row stands where its parent's full path says. */
  predicate Placed(rows: map<string, Row>, id: string)
    requires id in rows
  {
    match rows[id].parent
    case None => rows[id].path == "/"
    case Some(parent) => parent in rows && rows[id].path == FullPath(rows, parent)
  }

  predicate Forest(rows: map<string, Row>) {
    forall id :: id in rows ==> IsId(id) && Placed(rows, id)
  }

  /** The organisation n steps up from id. */
  function Climb(rows: map<string, Row>, id: string, n: nat): Option<string>
    decreases n
  {
    if id !in rows then None
    else if n == 0 then Some(id)
    else match rows[id].parent
         case None => None
         case Some(parent) => Climb(rows, parent, n - 1)
  }

  ghost predicate IsUnder(rows: map<string, Row>, id: string, top: string) {
    exists n: nat :: Climb(rows, id, n) == Some(top)
  }

  predicate Slashed(path: string) { path != "" && path[0] == '/' && path[|path| - 1] == '/' && NoWildcard(path) }

  lemma {:induction false} PathIsSlashed(rows: map<string, Row>, id: string)
    requires Forest(rows) && id in rows
    ensures Slashed(rows[id].path) && Slashed(FullPath(rows, id))
    decreases |rows[id].path|
  {
    var path := rows[id].path;
    if rows[id].parent.Some? {
      PathIsSlashed(rows, rows[id].parent.value);
    }
    assert FullPath(rows, id)[0] == path[0];
    assert forall c :: c in FullPath(rows, id) ==> c in path || c in id || c == '/';
  }

  lemma SlashesOfStep(p: string, id: string)
    requires '/' !in id
    ensures forall k :: |p| <= k < |p| + |id| ==> (p + id + "/")[k] != '/'
  {
    forall k | |p| <= k < |p| + |id| ensures (p + id + "/")[k] != '/' {
      assert (p + id + "/")[k] == id[k - |p|];
      assert id[k - |p|] in id;
    }
  }

  /** A path that ends in a slash ends inside p + id + "/" only at a slash of p, or at the end. */
  lemma PrefixOfStep(x: string, p: string, id: string)
    requires '/' !in id && x != "" && x[|x| - 1] == '/' && x <= p + id + "/"
    ensures x <= p || x == p + id + "/"
  {
    SlashesOfStep(p, id);
    var whole := p + id + "/";
    assert x == whole[..|x|] && whole[|x| - 1] == '/';
    if |x| <= |p| {
      assert x == p[..|x|];
    } else {
      assert |x| == |whole|;
    }
  }

  /** The last step of a path can be read off it. */
  lemma LastStep(p: string, a: string, q: string, b: string)
    requires '/' !in a && '/' !in b && p != "" && q != "" && p[|p| - 1] == '/' && q[|q| - 1] == '/'
    requires p + a + "/" == q + b + "/"
    ensures a == b && p == q
  {
    SlashesOfStep(p, a);
    SlashesOfStep(q, b);
    var whole := p + a + "/";
    assert whole[|p| - 1] == p[|p| - 1] && whole[|q| - 1] == q[|q| - 1];
    assert |p| == |q|;
    assert p == whole[..|p|] == q;
    assert a == whole[|p|..|p| + |a|] == b;
  }

  lemma {:induction false} UnderIsPrefix(rows: map<string, Row>, id: string, n: nat)
    requires Forest(rows) && Climb(rows, id, n).Some?
    ensures Climb(rows, id, n).value in rows && FullPath(rows, Climb(rows, id, n).value) <= FullPath(rows, id)
    decreases n
  {
    if n != 0 {
      UnderIsPrefix(rows, rows[id].parent.value, n - 1);
    }
  }

  lemma {:induction false} PrefixIsUnder(rows: map<string, Row>, id: string, top: string) returns (n: nat)
    requires Forest(rows) && id in rows && top in rows && FullPath(rows, top) <= FullPath(rows, id)
    ensures Climb(rows, id, n) == Some(top)
    decreases |rows[id].path|
  {
    PathIsSlashed(rows, id);
    PathIsSlashed(rows, top);
    PrefixOfStep(FullPath(rows, top), rows[id].path, id);
    if FullPath(rows, top) == FullPath(rows, id) {
      LastStep(rows[top].path, top, rows[id].path, id);
      n := 0;
    } else {
      assert |FullPath(rows, top)| >= 3;
      var up := PrefixIsUnder(rows, rows[id].parent.value, top);
      n := up + 1;
    }
  }

  /** The index is exact: one full path starts with another exactly when the organisation is the other or below it. */
  lemma PathExactly(rows: map<string, Row>, id: string, top: string)
    requires Forest(rows) && id in rows && top in rows
    ensures FullPath(rows, top) <= FullPath(rows, id) <==> IsUnder(rows, id, top)
  {
    if IsUnder(rows, id, top) {
      var n: nat :| Climb(rows, id, n) == Some(top);
      UnderIsPrefix(rows, id, n);
    }
    if FullPath(rows, top) <= FullPath(rows, id) {
      var n := PrefixIsUnder(rows, id, top);
    }
  }

  // The scopes.

  datatype Scope = Company | Division | Department | Own

  /** A principal's, or a row's, organisation and person. */
  datatype Place = Place(organization: Option<string>, person: Option<nat>)

  /** The condition orgInScope renders into a list query. */
  predicate OrgInScope(rows: map<string, Row>, item: Option<string>, scope: Scope, of: Option<string>) {
    || scope == Company
    || (scope == Department && of.Some? && item == of)
    || (scope == Division && item.Some? && of.Some? && item.value in rows && of.value in rows
        && Like(FullPath(rows, item.value), FullPath(rows, of.value) + "%"))
  }

  /** The condition of a list query: the rows a principal is shown. */
  predicate Listed(rows: map<string, Row>, item: Place, scope: Scope, p: Place) {
    || OrgInScope(rows, item.organization, scope, p.organization)
    || (scope == Own && item.person.Some? && item.person == p.person)
  }

  /** The check on one record, for objects and suppliers alike. */
  predicate MayOpen(rows: map<string, Row>, item: Place, scope: Scope, p: Place) {
    if scope == Company then true
    else if scope == Department then p.organization.Some? && item.organization.Some? && p.organization == item.organization
    else if scope == Division then
      p.organization.Some? && item.organization.Some? && OrgInScope(rows, item.organization, Division, p.organization)
    else item.person.Some? && item.person == p.person
  }

  /** A list shows exactly the records that can be opened. */
  lemma ListedExactlyWhatOpens(rows: map<string, Row>, item: Place, scope: Scope, p: Place)
    ensures Listed(rows, item, scope, p) <==> MayOpen(rows, item, scope, p)
  {
  }

  /** The division scope is the subtree. */
  lemma DivisionExactly(rows: map<string, Row>, item: string, of: string)
    requires Forest(rows) && item in rows && of in rows
    ensures OrgInScope(rows, Some(item), Division, Some(of)) <==> IsUnder(rows, item, of)
  {
    PathIsSlashed(rows, of);
    LikeIsPrefix(FullPath(rows, item), FullPath(rows, of));
    PathExactly(rows, item, of);
  }

  /** Who may open a record, scope by scope, in terms of the tree. */
  lemma OpensExactly(rows: map<string, Row>, item: Place, p: Place)
    requires Forest(rows)
    requires item.organization.Some? ==> item.organization.value in rows
    requires p.organization.Some? ==> p.organization.value in rows
    ensures MayOpen(rows, item, Company, p)
    ensures MayOpen(rows, item, Division, p) <==>
            item.organization.Some? && p.organization.Some? && IsUnder(rows, item.organization.value, p.organization.value)
    ensures MayOpen(rows, item, Department, p) <==>
            item.organization.Some? && p.organization.Some? && item.organization.value == p.organization.value
    ensures MayOpen(rows, item, Own, p) <==> item.person.Some? && p.person.Some? && item.person.value == p.person.value
  {
    if item.organization.Some? && p.organization.Some? {
      DivisionExactly(rows, item.organization.value, p.organization.value);
    }
  }

  /** Department, division and company widen in that order. */
  lemma ScopesWiden(rows: map<string, Row>, item: Option<string>, of: Option<string>)
    requires Forest(rows) && (of.Some? ==> of.value in rows)
    ensures OrgInScope(rows, item, Department, of) ==> OrgInScope(rows, item, Division, of)
    ensures OrgInScope(rows, item, Division, of) ==> OrgInScope(rows, item, Company, of)
  {
    if of.Some? && item == of {
      assert Climb(rows, of.value, 0) == Some(of.value);
      DivisionExactly(rows, of.value, of.value);
    }
  }

  /** Two divisions that share an organisation are one inside the other. */
  lemma DivisionsNest(rows: map<string, Row>, shared: string, a: string, b: string)
    requires Forest(rows) && shared in rows && a in rows && b in rows
    requires IsUnder(rows, shared, a) && IsUnder(rows, shared, b)
    ensures IsUnder(rows, a, b) || IsUnder(rows, b, a)
  {
    PathExactly(rows, shared, a);
    PathExactly(rows, shared, b);
    var s, pa, pb := FullPath(rows, shared), FullPath(rows, a), FullPath(rows, b);
    if |pa| <= |pb| {
      assert pa == s[..|pa|] == pb[..|pa|];
      PathExactly(rows, b, a);
    } else {
      assert pb == s[..|pb|] == pa[..|pb|];
      PathExactly(rows, a, b);
    }
  }

  // Growth.

  datatype Answer = Created | ValidationError | InvalidParent

  lemma AddKeepsForest(rows: map<string, Row>, id: string, row: Row)
    requires Forest(rows) && IsId(id) && id !in rows
    requires match row.parent
             case None => row.path == "/"
             case Some(parent) => parent in rows && row.path == FullPath(rows, parent)
    ensures Forest(rows[id := row])
  {
  }

  lemma {:induction false} AddKeepsClimb(rows: map<string, Row>, id: string, row: Row, from: string, n: nat)
    requires Forest(rows) && id !in rows && from in rows
    ensures Climb(rows[id := row], from, n) == Climb(rows, from, n)
    decreases n
  {
    if n != 0 && rows[from].parent.Some? {
      AddKeepsClimb(rows, id, row, rows[from].parent.value, n - 1);
    }
  }

  /** The new row takes its path from its parent's row; a root's is the bare slash. */
  function Added(rows: map<string, Row>, id: string, parent: string): map<string, Row>
    requires parent != "" ==> parent in rows
  {
    rows[id := if parent == "" then Row(None, "/") else Row(Some(parent), FullPath(rows, parent))]
  }

  /** A new organisation is under its parent and what its parent is under, and nothing else moves. */
  lemma AddedIsUnderItsParent(rows: map<string, Row>, id: string, parent: string, from: string, top: string)
    requires Forest(rows) && IsId(id) && id !in rows && (parent != "" ==> parent in rows) && from in rows
    ensures Forest(Added(rows, id, parent))
    ensures IsUnder(Added(rows, id, parent), id, top) <==> top == id || (parent != "" && IsUnder(rows, parent, top))
    ensures IsUnder(Added(rows, id, parent), from, top) <==> IsUnder(rows, from, top)
  {
    var row := if parent == "" then Row(None, "/") else Row(Some(parent), FullPath(rows, parent));
    AddKeepsForest(rows, id, row);
    NewUnder(rows, id, row, top);
    var after := Added(rows, id, parent);
    forall n: nat ensures Climb(after, from, n) == Climb(rows, from, n) {
      AddKeepsClimb(rows, id, row, from, n);
    }
    assert IsUnder(rows, from, top) ==> exists n: nat :: Climb(after, from, n) == Some(top);
  }

  lemma NewUnder(rows: map<string, Row>, id: string, row: Row, top: string)
    requires Forest(rows) && id !in rows
    requires row.parent.Some? ==> row.parent.value in rows
    ensures IsUnder(rows[id := row], id, top) <==> top == id || (row.parent.Some? && IsUnder(rows, row.parent.value, top))
  {
    var after := rows[id := row];
    assert Climb(after, id, 0) == Some(id);
    if row.parent.Some? {
      var parent := row.parent.value;
      forall n: nat ensures Climb(after, id, n + 1) == Climb(rows, parent, n) {
        AddKeepsClimb(rows, id, row, parent, n);
      }
      if n: nat :| Climb(rows, parent, n) == Some(top) {
        assert Climb(after, id, n + 1) == Some(top);
      }
    }
    if n: nat :| Climb(after, id, n) == Some(top) {
      if n != 0 {
        assert row.parent.Some? && Climb(after, id, (n - 1) + 1) == Climb(rows, row.parent.value, n - 1);
      }
    }
  }

  class Organizations {
    var rows: map<string, Row>

    ghost predicate Valid()
      reads this
    {
      Forest(rows)
    }

    constructor ()
      ensures Valid() && rows == map[]
    {
      rows := map[];
    }

    /** id is the uuid the database generates; parent is "" for a root. */
    method Create(id: string, name: string, parent: string) returns (answer: Answer)
      requires Valid() && IsId(id) && id !in rows
      modifies this
      ensures Valid()
      ensures answer == (if Trim(name) == "" then ValidationError
                         else if parent != "" && parent !in old(rows) then InvalidParent
                         else Created)
      ensures rows == if answer == Created then Added(old(rows), id, parent) else old(rows)
    {
      if Trim(name) == "" {
        return ValidationError;
      }
      var parentPath := "/";
      if parent != "" {
        if parent !in rows {
          return InvalidParent;
        }
        parentPath := FullPath(rows, parent);
      }
      var row := Row(if parent == "" then None else Some(parent), parentPath);
      AddKeepsForest(rows, id, row);
      rows := rows[id := row];
      return Created;
    }
  }
}
