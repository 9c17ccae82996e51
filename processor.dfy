/**
 * One run of the processor on one content: validate the properties, scan
 * the content through the bounded buffer, and send on the splits with their
 * lineage attributes and the original with the count. The content is given
 * as a whole and the group identifier as a parameter (the processor draws a
 * random UUID for it).
 */
module Processor {
  import opened Wrappers
  import opened Bytes
  import opened Matcher
  import opened Segmenting
  import opened Config
  import opened Fragments
  import opened Scanner

  /**
   * What a run sends on: a configuration error before any byte is read, or
   * the original and the splits of the content under the validated plan.
   */
  function Outcome(settings: Settings, content: seq<byte>, id: nat): (r: Result<Emission, ConfigError>)
    ensures r.Err? <==> Validate(settings).Err?
    ensures r.Err? ==> r.error == Validate(settings).error
    ensures r.Ok? ==> Reassemblable(r.value) && r.value.original.content == content && r.value.original.id == id
    ensures r.Ok? ==> forall k :: 0 <= k < |r.value.splits| ==> |r.value.splits[k].content| > 0
  {
    match Validate(settings)
    case Err(e) => Err(e)
    case Ok(plan) => Ok(Emit(content, Split(content, plan.delimiter, plan.keep, plan.position), id))
  }

  /** The run itself: the splits come from the streaming scanner, whose result is the specified one. */
  method SplitFlowFile(settings: Settings, content: seq<byte>, id: nat) returns (r: Result<Emission, ConfigError>)
    ensures r == Outcome(settings, content, id)
  {
    match Validate(settings)
    case Err(e) =>
      r := Err(e);
    case Ok(plan) =>
      var splits := SplitStreamed(content, plan.delimiter, plan.keep, plan.position, plan.capacity);
      r := Ok(Emit(content, splits, id));
  }

  /** Keeping the delimiter, content that is not empty yields at least one split. */
  lemma {:induction false} KeepSplitsSome(content: seq<byte>, d: Delimiter, position: Position)
    requires WellFormed(d) && content != []
    ensures Split(content, d, true, position) != []
  {
    var r := Segments(|content|, Matches(content, d, 0), true, position, 0);
    assert Tiling(r, 0, |content|);
  }

  /**
   * Split, then merge in defragment mode: keeping the delimiter, the merged
   * splits are the original content, whatever order they arrive in.
   */
  lemma {:induction false} SplitThenMerge(settings: Settings, content: seq<byte>, id: nat, arrived: seq<Fragment>)
    requires settings.keep && Validate(settings).Ok? && content != []
    requires DistinctIndices(arrived)
    requires multiset(arrived) == multiset(Outcome(settings, content, id).value.splits)
    ensures Defragment(arrived) == Some(content)
  {
    var plan := Validate(settings).value;
    var parts := Split(content, plan.delimiter, true, plan.position);
    KeepSplitsSome(content, plan.delimiter, plan.position);
    KeepRoundTrip(content, plan.delimiter, plan.position);
    MergeAnyOrder(content, parts, id, arrived);
  }

  /**
   * Content without the delimiter is sent on as one split equal to it, with
   * index 1 and count 1, and the original carries count 1.
   */
  lemma {:induction false} NoDelimiterOneFragment(settings: Settings, content: seq<byte>, id: nat)
    requires Validate(settings).Ok? && content != []
    requires forall i :: 0 <= i < |content| ==> !StartsAt(content, Validate(settings).value.delimiter, i)
    ensures Outcome(settings, content, id) ==
      Ok(Emission(Original(content, id, 1), [Fragment(content, id, 1, 1)]))
  {
    var plan := Validate(settings).value;
    NoDelimiterOneSplit(content, plan.delimiter, plan.keep, plan.position);
    var tagged := Tagged([content], id, 1, 1);
    assert tagged[0] == Fragment(content, id, 1, 1);
    assert tagged == [Fragment(content, id, 1, 1)];
  }

  /**
   * Empty content, which holds no occurrence either, is sent on as no split
   * at all, and the original carries count 0.
   */
  lemma {:induction false} EmptyContent(settings: Settings, id: nat)
    requires Validate(settings).Ok?
    ensures Outcome(settings, [], id) == Ok(Emission(Original([], id, 0), []))
  {
    var plan := Validate(settings).value;
    EmptyNoSplit(plan.delimiter, plan.keep, plan.position);
  }

  /** Dropping the delimiter, the splits hold the content less every matched delimiter. */
  lemma {:induction false} DropOutcome(settings: Settings, content: seq<byte>, id: nat)
    requires !settings.keep && Validate(settings).Ok?
    ensures var d := Validate(settings).value.delimiter;
      Concat(Payloads(Outcome(settings, content, id).value.splits)) == Stripped(content, Matches(content, d, 0), 0)
  {
    var plan := Validate(settings).value;
    var parts := Split(content, plan.delimiter, false, plan.position);
    DropRemovesDelimiters(content, plan.delimiter, plan.position);
    assert Payloads(Outcome(settings, content, id).value.splits) == parts;
  }
}
