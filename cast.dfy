/** The `film_cast` join both detail pages read: each link row carries the
    role and lead flag and the joined celebrity or film, which is null when
    the joined row is missing. */
module Cast {
  import opened Wrappers
  import opened Seqs

  datatype CastLink<E> = CastLink(roleName: Option<string>, isLead: bool, joined: Option<E>)

  /** `{ ...item.joined, role_name: item.role_name, is_lead: item.is_lead }`. */
  datatype Credit<E> = Credit(entity: E, roleName: Option<string>, isLead: bool)

  function Merge<E>(link: CastLink<E>): Credit<E>
    requires link.joined.Some?
  {
    Credit(link.joined.value, link.roleName, link.isLead)
  }

  /** `item => item.joined`: the joined row exists. */
  predicate HasJoined<E>(link: CastLink<E>) {
    link.joined.Some?
  }

  /** `.map(Merge)` over links that all have their joined row. */
  function MergeAll<E>(links: seq<CastLink<E>>): (r: seq<Credit<E>>)
    requires forall k :: 0 <= k < |links| ==> links[k].joined.Some?
    ensures |r| == |links| && forall k :: 0 <= k < |r| ==> r[k] == Merge(links[k])
    decreases |links|
  {
    if links == [] then []
    else
      assert forall k :: 0 < k < |links| ==> links[1..][k - 1] == links[k];
      [Merge(links[0])] + MergeAll(links[1..])
  }

  /** `rows.filter(item => item.joined).map(Merge)`: the links whose joined
      row exists, merged with their role fields, in their original order. */
  function Credits<E>(rows: seq<CastLink<E>>): (r: seq<Credit<E>>)
    ensures var kept := Filter(rows, HasJoined);
            |r| == |kept| && forall k :: 0 <= k < |r| ==> kept[k] in kept && r[k] == Merge(kept[k])
  {
    var kept := Filter(rows, HasJoined);
    assert forall k :: 0 <= k < |kept| ==> kept[k] in kept;
    MergeAll(kept)
  }

  /** Rows without a joined record are dropped, and every other row appears
      merged with its role fields. */
  lemma CreditsMembers<E>(rows: seq<CastLink<E>>)
    ensures |Credits(rows)| <= |rows|
    ensures |Credits(rows)| == |rows| <==> forall i :: 0 <= i < |rows| ==> rows[i].joined.Some?
    ensures forall c | c in Credits(rows) :: exists i :: 0 <= i < |rows| && rows[i].joined.Some? && c == Merge(rows[i])
    ensures forall i :: 0 <= i < |rows| && rows[i].joined.Some? ==> Merge(rows[i]) in Credits(rows)
  {
    var r, kept := Credits(rows), Filter(rows, HasJoined);
    forall c | c in r
      ensures exists i :: 0 <= i < |rows| && rows[i].joined.Some? && c == Merge(rows[i])
    {
      var k :| 0 <= k < |r| && r[k] == c;
      assert kept[k] in kept;
      var i :| 0 <= i < |rows| && rows[i] == kept[k];
    }
    forall i | 0 <= i < |rows| && rows[i].joined.Some?
      ensures Merge(rows[i]) in r
    {
      assert rows[i] in kept;
      var k :| 0 <= k < |kept| && kept[k] == rows[i];
      assert r[k] == Merge(rows[i]);
    }
    FilterFull(rows, HasJoined);
  }
}
