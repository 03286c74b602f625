/** Bead lookup by a full id or by the suffix that follows its last part's dash. */
module ShortIds {
  import opened Text

  lemma OnlyMember(ids: set<string>)
    requires |ids| == 1
    ensures exists id :: id in ids
    ensures forall a, b :: a in ids && b in ids ==> a == b
  {
    var a :| a in ids;
    assert |ids - {a}| == 0;
    forall b | b in ids ensures b == a {
      assert b != a ==> b in ids - {a};
    }
  }

  function Member(ids: set<string>): (id: string)
    requires |ids| == 1
    ensures id in ids
  {
    OnlyMember(ids);
    var id :| id in ids;
    id
  }

  /** The id itself when it is stored, else the only stored id that `like` says it shortens. */
  function Resolve(ids: set<string>, like: (string, string) -> bool, id: string): (full: Option<string>)
    ensures id in ids ==> full == Some(id)
    ensures full.Some? ==> full.value in ids
  {
    var suffixed := set q | q in ids && like(q, id);
    if id in ids then Some(id)
    else if |suffixed| == 1 then Some(Member(suffixed))
    else None
  }

  /** The one stored id that q shortens to id, if there is exactly one. */
  ghost predicate OnlySuffixed(ids: set<string>, like: (string, string) -> bool, id: string, q: string) {
    q in ids && like(q, id) && forall r :: r in ids && like(r, id) ==> r == q
  }

  /** A stored id names itself; any other names the one stored id it shortens, and nothing when there are several. */
  lemma ResolveIff(ids: set<string>, like: (string, string) -> bool, id: string, q: string)
    ensures Resolve(ids, like, id) == Some(q) <==> if id in ids then q == id else OnlySuffixed(ids, like, id, q)
  {
    var suffixed := set r | r in ids && like(r, id);
    if |suffixed| == 1 {
      OnlyMember(suffixed);
      assert Member(suffixed) in suffixed;
      forall r | r in ids && like(r, id) ensures r == Member(suffixed) { assert r in suffixed; }
    }
    if OnlySuffixed(ids, like, id, q) {
      assert suffixed == {q};
      assert Member({q}) in {q};
    }
  }
}
