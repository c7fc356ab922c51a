/** Adjusting a persisted aggregate for one removed item (DeleteFromDatabase,
    without its store calls), and replaying a whole removal list. */
module Aggregate {
  import opened Lists
  import opened Diagram

  /** Number of item records with item id `id`. */
  function CountItemId(s: seq<DiagramItemData>, id: int): nat {
    if s == [] then 0 else (if s[0].itemId == id then 1 else 0) + CountItemId(s[1..], id)
  }

  /** The first item record with item id `id`. */
  function FirstItemWithId(s: seq<DiagramItemData>, id: int): (i: nat)
    requires CountItemId(s, id) > 0
    ensures i < |s| && s[i].itemId == id
    ensures forall j | 0 <= j < i :: s[j].itemId != id
  {
    if s[0].itemId == id then 0 else 1 + FirstItemWithId(s[1..], id)
  }

  lemma {:induction false} CountItemIdPositions(s: seq<DiagramItemData>, id: int)
    ensures CountItemId(s, id) == 0 <==> forall i | 0 <= i < |s| :: s[i].itemId != id
    ensures CountItemId(s, id) == 1 ==>
      forall i, j | 0 <= i < |s| && 0 <= j < |s| && s[i].itemId == id && s[j].itemId == id :: i == j
  {
    if s != [] {
      CountItemIdPositions(s[1..], id);
      assert forall i | 1 <= i < |s| :: s[i] == s[1..][i - 1];
    }
  }

  /** The aggregate with `x` taken out, as DeleteFromDatabase changes it: a
      connection's id loses its first occurrence; a node's record is found with
      Single (an error unless exactly one record has the node's id) and removed. */
  function Adjust(d: DiagramRecord, x: Item): (r: Result<DiagramRecord>)
  {
    match x
    case ConnectionItem(c) => Ok(d.(connectionIds := RemoveFirst(d.connectionIds, c.id)))
    case NodeItem(n) =>
      var count := CountItemId(d.designerItems, n.id);
      if count == 0 then Err(NoMatch(n.id))
      else if count > 1 then Err(MultipleMatches(n.id))
      else
        var record := d.designerItems[FirstItemWithId(d.designerItems, n.id)];
        Ok(d.(designerItems := RemoveFirst(d.designerItems, record)))
  }

  /** Removing a connection drops the first occurrence of its id and leaves the item records alone. */
  lemma AdjustConnection(d: DiagramRecord, x: Item)
    requires x.ConnectionItem?
    ensures Adjust(d, x).Ok?
    ensures Adjust(d, x).value.id == d.id
    ensures Adjust(d, x).value.designerItems == d.designerItems
    ensures x.Id() !in d.connectionIds ==> Adjust(d, x).value.connectionIds == d.connectionIds
    ensures x.Id() in d.connectionIds ==>
      var i := IndexOf(d.connectionIds, x.Id());
      Adjust(d, x).value.connectionIds == d.connectionIds[..i] + d.connectionIds[i + 1..]
  {
    if x.Id() in d.connectionIds {
      RemoveFirstSplit(d.connectionIds, x.Id());
    }
  }

  /** Cutting out the only record with item id `id` leaves no record with that id. */
  lemma CutOnlyRecord(s: seq<DiagramItemData>, id: int, i: nat)
    requires CountItemId(s, id) == 1 && i < |s| && s[i].itemId == id
    ensures CountItemId(s[..i] + s[i + 1..], id) == 0
  {
    var r := s[..i] + s[i + 1..];
    CountItemIdPositions(s, id);
    CountItemIdPositions(r, id);
    forall k | 0 <= k < |r| ensures r[k].itemId != id {
      if k < i {
        assert r[k] == s[k];
      } else {
        assert r[k] == s[k + 1];
      }
    }
  }

  /** RemoveFirst of the first record with item id `id` cuts out exactly that position. */
  lemma RemoveFirstRecord(s: seq<DiagramItemData>, id: int)
    requires CountItemId(s, id) > 0
    ensures var i := FirstItemWithId(s, id);
      RemoveFirst(s, s[i]) == s[..i] + s[i + 1..]
  {
    var i := FirstItemWithId(s, id);
    assert IndexOf(s, s[i]) == i by {
      var k := IndexOf(s, s[i]);
      assert s[k].itemId == id;
    }
    RemoveFirstSplit(s, s[i]);
  }

  /** Removing a node succeeds exactly when one record carries its id; that one
      record is cut out, every other record and all connection ids stay. */
  lemma {:induction false} AdjustNode(d: DiagramRecord, x: Item)
    requires x.NodeItem?
    ensures Adjust(d, x).Ok? <==> CountItemId(d.designerItems, x.Id()) == 1
    ensures CountItemId(d.designerItems, x.Id()) == 0 ==> Adjust(d, x) == Err(NoMatch(x.Id()))
    ensures CountItemId(d.designerItems, x.Id()) > 1 ==> Adjust(d, x) == Err(MultipleMatches(x.Id()))
    ensures Adjust(d, x).Ok? ==>
      && Adjust(d, x).value.id == d.id
      && Adjust(d, x).value.connectionIds == d.connectionIds
      && CountItemId(Adjust(d, x).value.designerItems, x.Id()) == 0
      && exists i | 0 <= i < |d.designerItems| ::
           d.designerItems[i].itemId == x.Id() &&
           Adjust(d, x).value.designerItems == d.designerItems[..i] + d.designerItems[i + 1..]
  {
    var s, id := d.designerItems, x.Id();
    if CountItemId(s, id) == 1 {
      var i := FirstItemWithId(s, id);
      RemoveFirstRecord(s, id);
      CutOnlyRecord(s, id, i);
      assert Adjust(d, x).value.designerItems == s[..i] + s[i + 1..];
    }
  }

  /** The aggregate after the removal list has been replayed onto it, one
      DeleteFromDatabase per entry in order; the first failure stops the replay. */
  function AdjustAll(d: DiagramRecord, xs: seq<Item>): (r: Result<DiagramRecord>)
    decreases |xs|
  {
    if xs == [] then Ok(d)
    else
      match Adjust(d, xs[0])
      case Err(e) => Err(e)
      case Ok(d') => AdjustAll(d', xs[1..])
  }

  /** Replaying keeps the aggregate's id and keeps its connection ids free of repeats. */
  lemma {:induction false} AdjustAllKeeps(d: DiagramRecord, xs: seq<Item>)
    requires Distinct(d.connectionIds)
    ensures AdjustAll(d, xs).Ok? ==>
      AdjustAll(d, xs).value.id == d.id && Distinct(AdjustAll(d, xs).value.connectionIds)
    decreases |xs|
  {
    if xs != [] {
      var r := Adjust(d, xs[0]);
      if r.Ok? {
        if xs[0].ConnectionItem? {
          RemoveFirstDistinct(d.connectionIds, xs[0].Id());
        } else {
          AdjustNode(d, xs[0]);
        }
        AdjustAllKeeps(r.value, xs[1..]);
      }
    }
  }
}
