/**
 * The lineage attributes of a split: every split carries the identifier it
 * shares with the original (fragment.identifier), its 1-based position
 * (fragment.index) and the number of splits (fragment.count); the original
 * is passed on carrying the same identifier and the count. A downstream
 * merge in defragment mode finds the splits by index and concatenates them.
 */
module Fragments {
  import opened Wrappers
  import opened Bytes

  /** A split, with the attributes it is emitted with. */
  datatype Fragment = Fragment(content: seq<byte>, id: nat, index: nat, count: nat)

  /** The original content, passed on with the identifier and count of its splits. */
  datatype Original = Original(content: seq<byte>, id: nat, count: nat)

  datatype Emission = Emission(original: Original, splits: seq<Fragment>)

  /** The parts, numbered from `next` on, all with the identifier and the count. */
  function Tagged(parts: seq<seq<byte>>, id: nat, count: nat, next: nat): (r: seq<Fragment>)
    ensures |r| == |parts|
    ensures forall k :: 0 <= k < |r| ==> r[k] == Fragment(parts[k], id, next + k, count)
    decreases |parts|
  {
    if parts == [] then []
    else [Fragment(parts[0], id, next, count)] + Tagged(parts[1..], id, count, next + 1)
  }

  /**
   * The reassembly contract: one identifier for the original and all its
   * splits, every split carrying the count, which is the number of splits,
   * and the indices 1..n in emission order, without gap or repeat.
   */
  predicate Reassemblable(e: Emission)
  {
    e.original.count == |e.splits| &&
    forall k :: 0 <= k < |e.splits| ==>
      e.splits[k].id == e.original.id && e.splits[k].count == |e.splits| && e.splits[k].index == k + 1
  }

  /**
   * What the processor sends on for one content: the original with the
   * count, and the parts as splits 1..n. The count is known only once the
   * whole content has been cut, so every split gets it at the end.
   */
  function Emit(content: seq<byte>, parts: seq<seq<byte>>, id: nat): (e: Emission)
    ensures Reassemblable(e) && e.original.content == content
    ensures |e.splits| == |parts| && forall k :: 0 <= k < |parts| ==> e.splits[k].content == parts[k]
  {
    Emission(Original(content, id, |parts|), Tagged(parts, id, |parts|, 1))
  }

  // -----------------------------------------------------------------------
  // The consumer: a merge that orders the fragments by index

  /** The first fragment with the index, if any. */
  function Find(frags: seq<Fragment>, index: nat): (r: Option<Fragment>)
    ensures r.Some? ==> r.value in frags && r.value.index == index
    ensures r.None? ==> forall k :: 0 <= k < |frags| ==> frags[k].index != index
    decreases |frags|
  {
    if frags == [] then None
    else if frags[0].index == index then Some(frags[0])
    else Find(frags[1..], index)
  }

  /** The contents of the fragments with indices i..n, in index order, if none is missing. */
  function Gather(frags: seq<Fragment>, i: nat, n: nat): (r: Option<seq<byte>>)
    decreases n + 1 - i
  {
    if i > n then Some([])
    else match Find(frags, i)
      case None => None
      case Some(f) =>
        match Gather(frags, i + 1, n)
        case None => None
        case Some(rest) => Some(f.content + rest)
  }

  /** All fragments share the first one's identifier and count, and the count is how many there are. */
  predicate OneGroup(frags: seq<Fragment>)
  {
    frags != [] &&
    forall k :: 0 <= k < |frags| ==> frags[k].id == frags[0].id && frags[k].count == |frags|
  }

  /** The merged content of one group of fragments, or nothing when the group is incomplete. */
  function Defragment(frags: seq<Fragment>): (r: Option<seq<byte>>)
  {
    if OneGroup(frags) then Gather(frags, 1, |frags|) else None
  }

  /** In numbered fragments, index i is found at position i - next. */
  lemma {:induction false} FindNumbered(frags: seq<Fragment>, next: nat, k: nat)
    requires k < |frags| && forall j :: 0 <= j < |frags| ==> frags[j].index == next + j
    ensures Find(frags, next + k) == Some(frags[k])
    decreases |frags|
  {
    if k > 0 {
      FindNumbered(frags[1..], next + 1, k - 1);
    }
  }

  /** Gathering numbered fragments from i on gives their contents in order. */
  lemma {:induction false} GatherNumbered(frags: seq<Fragment>, i: nat)
    requires 1 <= i <= |frags| + 1 && forall j :: 0 <= j < |frags| ==> frags[j].index == j + 1
    ensures Gather(frags, i, |frags|) == Some(Concat(Payloads(frags[i - 1..])))
    decreases |frags| + 1 - i
  {
    if i <= |frags| {
      FindNumbered(frags, 1, i - 1);
      GatherNumbered(frags, i + 1);
      assert Payloads(frags[i - 1..]) == [frags[i - 1].content] + Payloads(frags[i..]);
    }
  }

  /** The contents of fragments, in sequence order. */
  function Payloads(frags: seq<Fragment>): (r: seq<seq<byte>>)
    ensures |r| == |frags| && forall k :: 0 <= k < |frags| ==> r[k] == frags[k].content
  {
    seq(|frags|, k requires 0 <= k < |frags| => frags[k].content)
  }

  /**
   * Merging what the processor emits gives back the parts concatenated in
   * index order.
   */
  lemma {:induction false} MergeEmitted(content: seq<byte>, parts: seq<seq<byte>>, id: nat)
    requires parts != []
    ensures Defragment(Emit(content, parts, id).splits) == Some(Concat(parts))
  {
    var frags := Emit(content, parts, id).splits;
    GatherNumbered(frags, 1);
    assert frags[0..] == frags;
    assert Payloads(frags) == parts;
  }

  /** No two fragments carry the same index. */
  predicate DistinctIndices(frags: seq<Fragment>)
  {
    forall j, k :: 0 <= j < k < |frags| ==> frags[j].index != frags[k].index
  }

  /** With distinct indices, a fragment is the one found by its index. */
  lemma {:induction false} FindUnique(frags: seq<Fragment>, f: Fragment)
    requires DistinctIndices(frags) && f in frags
    ensures Find(frags, f.index) == Some(f)
    decreases |frags|
  {
    if frags[0] != f {
      assert f in frags[1..];
      var k :| 0 <= k < |frags| && frags[k] == f;
      assert frags[0].index != f.index;
      FindUnique(frags[1..], f);
    }
  }

  /** Two arrangements of the same fragments, with distinct indices, gather alike. */
  lemma {:induction false} GatherAnyOrder(a: seq<Fragment>, b: seq<Fragment>, i: nat, n: nat)
    requires DistinctIndices(a) && DistinctIndices(b) && multiset(a) == multiset(b)
    ensures Gather(a, i, n) == Gather(b, i, n)
    decreases n + 1 - i
  {
    if i <= n {
      GatherAnyOrder(a, b, i + 1, n);
      match Find(a, i)
      case Some(f) =>
        assert f in multiset(b);
        FindUnique(b, f);
      case None =>
        forall k | 0 <= k < |b|
          ensures b[k].index != i
        {
          assert b[k] in multiset(a);
        }
    }
  }

  /**
   * The merge does not depend on the order the splits arrive in: any
   * arrangement of what the processor emitted merges to the parts
   * concatenated in index order.
   */
  lemma {:induction false} MergeAnyOrder(content: seq<byte>, parts: seq<seq<byte>>, id: nat, arrived: seq<Fragment>)
    requires parts != [] && DistinctIndices(arrived)
    requires multiset(arrived) == multiset(Emit(content, parts, id).splits)
    ensures Defragment(arrived) == Some(Concat(parts))
  {
    var frags := Emit(content, parts, id).splits;
    assert DistinctIndices(frags);
    assert |arrived| == |frags| by {
      assert |multiset(arrived)| == |multiset(frags)|;
    }
    forall k | 0 <= k < |arrived|
      ensures arrived[k].id == arrived[0].id && arrived[k].count == |arrived|
    {
      assert arrived[k] in multiset(frags) && arrived[0] in multiset(frags);
    }
    GatherAnyOrder(arrived, frags, 1, |frags|);
    MergeEmitted(content, parts, id);
  }
}
