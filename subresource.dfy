/** One sub-resource array of a profile, and the three array updates the
    employee handlers send to the store: `$push` of a new element,
    positional `$set` ("arr.$.field") of the element with a given `_id`, and
    `$pull` of the elements with a given `_id`. */
module SubResource {
  import opened Base
  import opened EmployeeModel

  predicate HasId(xs: seq<Entry>, id: Id) {
    exists i :: 0 <= i < |xs| && xs[i].id == id
  }

  /** `$elemMatch` on the duplicate key, optionally with `_id: {$ne: except}`. */
  predicate HasKey(xs: seq<Entry>, key: seq<string>, except: Option<Id>) {
    exists i :: 0 <= i < |xs| && xs[i].item.Key() == key && (except.None? || xs[i].id != except.value)
  }

  predicate IdsUnique(xs: seq<Entry>) {
    forall i, j :: 0 <= i < j < |xs| ==> xs[i].id != xs[j].id
  }

  /** No two elements share the duplicate key of their kind. */
  predicate KeysUnique(xs: seq<Entry>) {
    forall i, j :: 0 <= i < j < |xs| ==> xs[i].item.Key() != xs[j].item.Key()
  }

  /** What every array of kind `k` satisfies when `n` is the next unused id:
      elements of the right shape, distinct ids below `n`, and, for the
      de-duplicated kinds, distinct keys. */
  predicate CollectionOk(k: Kind, xs: seq<Entry>, n: nat) {
    (forall i :: 0 <= i < |xs| ==> xs[i].id < n && xs[i].item.KindOf() == k)
    && IdsUnique(xs)
    && (k.Deduped() ==> KeysUnique(xs))
  }

  /** Positional `$set`: the first element whose `_id` is `id` takes the new
      fields and keeps its `_id`; every other element stays. */
  function SetFirst(xs: seq<Entry>, id: Id, item: Item): (r: seq<Entry>)
    ensures |r| == |xs|
    ensures forall i :: 0 <= i < |xs| ==> r[i].id == xs[i].id
    ensures !HasId(xs, id) ==> r == xs
  {
    if xs == [] then []
    else if xs[0].id == id then [Entry(id, item)] + xs[1..]
    else [xs[0]] + SetFirst(xs[1..], id, item)
  }

  /** With distinct ids, exactly the element with `_id == id` changes. */
  lemma {:induction false} SetFirstAt(xs: seq<Entry>, id: Id, item: Item)
    requires IdsUnique(xs)
    ensures forall i :: 0 <= i < |xs| ==>
      SetFirst(xs, id, item)[i] == if xs[i].id == id then Entry(id, item) else xs[i]
  {
    if xs != [] {
      assert IdsUnique(xs[1..]);
      SetFirstAt(xs[1..], id, item);
      if xs[0].id == id {
        assert forall i :: 1 <= i < |xs| ==> xs[i].id != id;
      }
    }
  }

  /** `$pull: {arr: {_id: id}}`: every element with that `_id` goes, the
      others stay in order. */
  function PullAll(xs: seq<Entry>, id: Id): (r: seq<Entry>)
    ensures |r| <= |xs|
    ensures forall i :: 0 <= i < |r| ==> r[i] in xs && r[i].id != id
    ensures !HasId(xs, id) ==> r == xs
  {
    if xs == [] then []
    else if xs[0].id == id then PullAll(xs[1..], id)
    else [xs[0]] + PullAll(xs[1..], id)
  }

  /** Pulling keeps every element with another `_id`. */
  lemma {:induction false} PullKeeps(xs: seq<Entry>, id: Id)
    ensures forall i :: 0 <= i < |xs| && xs[i].id != id ==> xs[i] in PullAll(xs, id)
  {
    if xs != [] {
      PullKeeps(xs[1..], id);
      forall i | 1 <= i < |xs| && xs[i].id != id
        ensures xs[i] in PullAll(xs, id)
      {
        assert xs[i] == xs[1..][i - 1];
      }
    }
  }

  /** With distinct ids, the element at the head is the only one with its
      id. */
  lemma HeadIdOnly(xs: seq<Entry>)
    requires IdsUnique(xs) && xs != []
    ensures !HasId(xs[1..], xs[0].id)
  {
    forall i | 0 <= i < |xs| - 1
      ensures xs[1..][i].id != xs[0].id
    {
      assert xs[1..][i] == xs[i + 1];
    }
  }

  /** With distinct ids, pulling removes exactly the one element at `p`. */
  lemma {:induction false} PullAt(xs: seq<Entry>, id: Id, p: nat)
    requires IdsUnique(xs) && p < |xs| && xs[p].id == id
    ensures PullAll(xs, id) == xs[..p] + xs[p + 1..]
  {
    var tail := xs[1..];
    assert IdsUnique(tail);
    if p == 0 {
      HeadIdOnly(xs);
      assert xs[..p] + xs[p + 1..] == tail;
    } else {
      assert xs[0].id != id;
      PullAt(tail, id, p - 1);
      assert xs[..p] == [xs[0]] + tail[..p - 1];
      assert xs[p + 1..] == tail[p..];
    }
  }

  /** Appending an element with a fresh id and a key not yet present keeps
      the array well formed. */
  lemma PushOk(k: Kind, xs: seq<Entry>, n: nat, item: Item)
    requires CollectionOk(k, xs, n) && item.KindOf() == k
    requires k.Deduped() ==> !HasKey(xs, item.Key(), None)
    ensures CollectionOk(k, xs + [Entry(n, item)], n + 1)
  {
    var ys := xs + [Entry(n, item)];
    forall i, j | 0 <= i < j < |ys|
      ensures ys[i].id != ys[j].id
      ensures k.Deduped() ==> ys[i].item.Key() != ys[j].item.Key()
    {
      if j == |xs| {
        assert ys[i] == xs[i];
      }
    }
  }

  /** Overwriting the element with `_id == id` keeps the array well formed
      when no OTHER element has the new key. */
  lemma SetFirstOk(k: Kind, xs: seq<Entry>, n: nat, id: Id, item: Item)
    requires CollectionOk(k, xs, n) && item.KindOf() == k
    requires k.Deduped() ==> !HasKey(xs, item.Key(), Some(id))
    ensures CollectionOk(k, SetFirst(xs, id, item), n)
  {
    SetFirstAt(xs, id, item);
    var ys := SetFirst(xs, id, item);
    forall i | 0 <= i < |ys|
      ensures ys[i].id < n && ys[i].item.KindOf() == k
    {
    }
    if k.Deduped() {
      forall i, j | 0 <= i < j < |ys|
        ensures ys[i].item.Key() != ys[j].item.Key()
      {
        if xs[i].id == id {
          assert ys[j] == xs[j];
        } else if xs[j].id == id {
          assert ys[i] == xs[i];
        }
      }
    }
  }

  lemma {:induction false} PullAllOk(k: Kind, xs: seq<Entry>, n: nat, id: Id)
    requires CollectionOk(k, xs, n)
    ensures CollectionOk(k, PullAll(xs, id), n)
  {
    if xs != [] {
      var tail := xs[1..];
      assert CollectionOk(k, tail, n);
      PullAllOk(k, tail, n, id);
      if xs[0].id != id {
        var ys := [xs[0]] + PullAll(tail, id);
        forall i, j | 0 <= i < j < |ys|
          ensures ys[i].id != ys[j].id
          ensures k.Deduped() ==> ys[i].item.Key() != ys[j].item.Key()
        {
          if i == 0 {
            assert ys[j] in tail;
          }
        }
      }
    }
  }

  /** Re-saving an element with its own values is never a duplicate: the
      check excludes the element being edited. */
  lemma ResaveIsNoDuplicate(xs: seq<Entry>, p: nat)
    requires KeysUnique(xs) && p < |xs|
    ensures !HasKey(xs, xs[p].item.Key(), Some(xs[p].id))
  {
    forall i | 0 <= i < |xs| && xs[i].item.Key() == xs[p].item.Key()
      ensures i == p
    {
    }
  }
}
