/** A room's rows and the order every queue statement uses: votes, then latest vote, then added time. */
module QueueOrder {
  import opened Wrappers

  datatype Source = YouTube | SoundCloud

  /** A playlist_items row; title stands for the columns that no statement here reads. */
  datatype Item = Item(id: nat, source: Source, sourceId: nat, duration: int, title: nat,
                       addedAt: int, guarded: bool, metadataAt: int)

  /** A queue row as the statements aggregate it: the item, COUNT of votes and MAX of vote times. */
  datatype Row = Row(item: Item, votes: nat, last: Option<int>)

  /** Ascending vote times, NULL last. */
  predicate Earlier(a: Option<int>, b: Option<int>)
  {
    a.Some? && (b.Some? ==> a.value < b.value)
  }

  /** ORDER BY vote_count DESC, MAX(created_at) ASC, added_at ASC. */
  predicate Before(a: Row, b: Row)
  {
    || a.votes > b.votes
    || (a.votes == b.votes && Earlier(a.last, b.last))
    || (a.votes == b.votes && a.last == b.last && a.item.addedAt < b.item.addedAt)
  }

  lemma BeforeIsTransitive(a: Row, b: Row, c: Row)
    requires Before(a, b) && Before(b, c)
    ensures Before(a, c)
  {
  }

  /** No two rows share an added time, so the order leaves no ties. */
  ghost predicate NoTies(rows: set<Row>)
  {
    forall a, b :: a in rows && b in rows && a != b ==> a.item.addedAt != b.item.addedAt
  }

  ghost predicate Sorted(s: seq<Row>)
  {
    forall i, j :: 0 <= i < j < |s| ==> Before(s[i], s[j])
  }

  /** s is rows in queue order. */
  ghost predicate Lists(s: seq<Row>, rows: set<Row>)
  {
    Sorted(s) && forall r :: r in s <==> r in rows
  }

  /** There is only one way to put rows in queue order. */
  lemma {:induction false} OrderIsUnique(s: seq<Row>, t: seq<Row>, rows: set<Row>)
    requires Lists(s, rows) && Lists(t, rows)
    ensures s == t
  {
    assert |t| > 0 ==> t[0] in s;
    if s != [] {
      assert s[0] in rows;
      var j :| 0 <= j < |t| && t[j] == s[0];
      assert t[0] in rows;
      var k :| 0 <= k < |s| && s[k] == t[0];
      assert j == 0;
      TailLists(s, rows);
      TailLists(t, rows);
      OrderIsUnique(s[1..], t[1..], rows - {s[0]});
    }
  }

  lemma TailLists(s: seq<Row>, rows: set<Row>)
    requires Lists(s, rows) && s != []
    ensures Lists(s[1..], rows - {s[0]})
  {
    forall r
      ensures r in s[1..] <==> r in rows - {s[0]}
    {
      if r in s[1..] {
        var i :| 0 <= i < |s[1..]| && s[1..][i] == r;
        assert s[i + 1] == r;
        assert Before(s[0], s[i + 1]);
      }
      if r in rows - {s[0]} {
        var i :| 0 <= i < |s| && s[i] == r;
        assert s[1..][i - 1] == r;
      }
    }
  }

  ghost function Insert(x: Row, s: seq<Row>): (t: seq<Row>)
    requires Sorted(s) && forall r :: r in s ==> r.item.addedAt != x.item.addedAt
    ensures Sorted(t) && forall r :: r in t <==> r == x || r in s
  {
    if s == [] then [x]
    else if Before(x, s[0]) then
      assert forall i :: 1 <= i < |s| ==> Before(x, s[i]) by {
        forall i | 1 <= i < |s| ensures Before(x, s[i]) { BeforeIsTransitive(x, s[0], s[i]); }
      }
      [x] + s
    else
      assert forall r :: r in s[1..] ==> Before(s[0], r);
      [s[0]] + Insert(x, s[1..])
  }

  /** The rows in queue order. */
  ghost function Order(rows: set<Row>): (s: seq<Row>)
    requires NoTies(rows)
    ensures Lists(s, rows)
  {
    if rows == {} then []
    else
      var x :| x in rows;
      Insert(x, Order(rows - {x}))
  }

  ghost predicate IsFirst(r: Row, rows: set<Row>)
  {
    r in rows && forall x :: x in rows && x != r ==> Before(r, x)
  }

  /** The row a statement with LIMIT 1 returns. */
  ghost function First(rows: set<Row>): (r: Row)
    requires NoTies(rows) && rows != {}
    ensures IsFirst(r, rows)
  {
    var s := Order(rows);
    var x :| x in rows;
    assert x in s;
    s[0]
  }

  /** The head of a set stays or is replaced when a row is added. */
  lemma FirstOfMore(seen: set<Row>, best: Row, row: Row)
    requires NoTies(seen + {row}) && IsFirst(best, seen)
    ensures IsFirst(if Before(row, best) then row else best, seen + {row})
  {
    forall x | x in seen && Before(row, best)
      ensures Before(row, x)
    {
      if x != best { BeforeIsTransitive(row, best, x); }
    }
  }

  lemma FirstIsUnique(rows: set<Row>, r: Row)
    requires NoTies(rows) && IsFirst(r, rows)
    ensures First(rows) == r
  {
  }
}
