/** The object that splits a request for n samples and assembles the outputs again. */
module SampleGroup {
  import opened OutputStream
  import opened ParallelSampling
  import opened Ranking
  import opened Wrappers

  ghost function Footprint(s: seq<Sequence>): set<object> {
    (set x: Sequence | x in s) + (set x: Sequence | x in s :: x.data as object)
  }

  ghost function Views(s: seq<Sequence>): (r: seq<Stream>)
    reads Footprint(s)
    ensures |r| == |s|
  {
    seq(|s|, k requires 0 <= k < |s| reads Footprint(s) => s[k].View())
  }

  function Scores(s: seq<Sequence>): (r: seq<real>)
    reads set x | x in s :: x.data
    ensures |r| == |s|
  {
    seq(|s|, k requires 0 <= k < |s| reads set x | x in s :: x.data => s[k].data.cumulativeLogprob)
  }

  ghost predicate AllValid(s: seq<Sequence>)
    reads Footprint(s)
  {
    forall k :: 0 <= k < |s| ==> s[k].Valid()
  }

  ghost predicate Distinct(s: seq<Sequence>) {
    forall j, k :: 0 <= j < k < |s| ==> s[j] != s[k]
  }

  /** One completion per sequence, numbered in order; a delta advances the offsets of each sequence. */
  method CollectOutputs(seqs: seq<Sequence>, cfg: Config) returns (outputs: seq<Completion>)
    requires Distinct(seqs) && AllValid(seqs)
    modifies seqs`lastOutputTextOffset, seqs`lastOutputTokenIdsOffset
    ensures |outputs| == |seqs|
    ensures forall k :: 0 <= k < |seqs| ==> var st := old(seqs[k].View());
              && st.Valid() && seqs[k].Valid()
              && outputs[k] == Entry(cfg, st, k)
              && seqs[k].View() == (if cfg.kind == DELTA then st.Advance(cfg.buffer) else st)
  {
    outputs := [];
    for i := 0 to |seqs|
      invariant |outputs| == i
      invariant forall k :: 0 <= k < i ==> var st := old(seqs[k].View());
                  && st.Valid() && seqs[k].Valid()
                  && outputs[k] == Entry(cfg, st, k)
                  && seqs[k].View() == (if cfg.kind == DELTA then st.Advance(cfg.buffer) else st)
      invariant forall k :: i <= k < |seqs| ==> seqs[k].View() == old(seqs[k].View()) && seqs[k].Valid()
    {
      hide Stream.Shown, Stream.DeltaText, Stream.CumulativeText;
      var text := seqs[i].GetOutputTextToReturn(cfg.buffer, cfg.kind == DELTA);
      var ids := seqs[i].GetOutputTokenIdsToReturn(cfg.kind == DELTA);
      outputs := outputs + [Completion(i, text, ids, IsFinished(seqs[i].status))];
    }
  }

  /** Sequence k after the group has been emitted. */
  ghost function AfterEmit(cfg: Config, g: Group, k: nat): Stream
    requires k < |g.streams|
  {
    if cfg.kind == DELTA && k in g.order then g.streams[k].Advance(cfg.buffer) else g.streams[k]
  }

  function Entry(cfg: Config, st: Stream, k: nat): Completion
    requires st.Valid()
  {
    if cfg.kind == DELTA then Completion(k, st.DeltaText(cfg.buffer), st.DeltaTokens(), st.finished)
    else Completion(k, st.CumulativeText(cfg.buffer), st.output, st.finished)
  }

  ghost predicate AllFinished(g: Group)
    requires forall k :: 0 <= k < |g.order| ==> g.order[k] < |g.streams|
  {
    forall k :: 0 <= k < |g.order| ==> g.streams[g.order[k]].finished
  }

  lemma EmitNothing(cfg: Config, g: Group)
    requires forall k :: 0 <= k < |g.order| ==> g.order[k] < |g.streams|
    requires forall k :: 0 <= k < |g.streams| ==> g.streams[k].Valid()
    requires cfg.kind == FINAL_ONLY && !AllFinished(g)
    ensures ParallelSampling.Emit(cfg, g) == (None, g)
  {
  }

  lemma EmitValue(cfg: Config, g: Group, outputs: seq<Completion>, after: seq<Stream>)
    requires forall k :: 0 <= k < |g.order| ==> g.order[k] < |g.streams|
    requires forall k :: 0 <= k < |g.streams| ==> g.streams[k].Valid()
    requires |outputs| == |g.order| && forall k :: 0 <= k < |g.order| ==>
                                         outputs[k] == Entry(cfg, g.streams[g.order[k]], k)
    requires |after| == |g.streams| && forall k :: 0 <= k < |after| ==> after[k] == AfterEmit(cfg, g, k)
    requires cfg.kind != FINAL_ONLY || AllFinished(g)
    ensures ParallelSampling.Emit(cfg, g) == (Some(Output(outputs, AllFinished(g))), g.(streams := after))
  {
    hide Stream.Shown, Stream.DeltaText, Stream.CumulativeText, Stream.Advance;
    if cfg.kind != DELTA {
      assert after == g.streams;
    }
    var (out, g') := ParallelSampling.Emit(cfg, g);
    assert outputs == out.value.outputs;
    assert after == g'.streams;
  }

  lemma NotPicked(members: seq<Sequence>, seqs: seq<Sequence>, order: seq<nat>, k: nat)
    requires Distinct(members) && k < |members| && k !in order && |seqs| == |order|
    requires forall j :: 0 <= j < |order| ==> order[j] < |members| && seqs[j] == members[order[j]]
    ensures members[k] !in seqs
  {
  }

  lemma ViewsAre(s: seq<Sequence>)
    ensures forall k :: 0 <= k < |s| ==> Views(s)[k] == s[k].View()
  {
  }

  lemma ViewsAreValid(s: seq<Sequence>)
    requires AllValid(s)
    ensures forall k :: 0 <= k < |s| ==> Views(s)[k].Valid()
  {
  }

  class ParallelSampleSequenceGroup {
    /** members[i] is the sequence of sub-request i. */
    const members: seq<Sequence>
    const cfg: Config

    /** The sequences of the assembled group, members[order[0]], members[order[1]], ... */
    var seqs: seq<Sequence>
    var toBeFinished: seq<nat>
    var finishedReqs: seq<nat>
    var outputProduced: bool
    ghost var order: seq<nat>

    /** The assembled group lists distinct members. */
    ghost predicate Wired()
      reads this
    {
      && this !in Footprint(members) && 0 < |members| && Distinct(members) && Distinct(seqs)
      && |seqs| == |order| && (forall k :: 0 <= k < |order| ==> order[k] < |members| && seqs[k] == members[order[k]])
      && (!outputProduced ==> seqs == members)
      && (forall k :: k in toBeFinished ==> k < |members|)
    }

    ghost predicate Valid()
      reads this, Footprint(members)
    {
      Wired() && AllValid(members)
    }

    ghost function View(registered: set<nat>): Group
      reads this, Footprint(members)
    {
      Group(Views(members), Scores(members), order, toBeFinished, finishedReqs, registered, outputProduced)
    }

    /** One pending sub-request per sequence, in order. */
    constructor (members: seq<Sequence>, cfg: Config)
      requires 0 < |members| && Distinct(members) && AllValid(members)
      ensures Valid() && this.members == members && this.cfg == cfg
      ensures forall registered :: View(registered) ==
                Group(Views(members), Scores(members), UpTo(|members|), UpTo(|members|), [], registered, false)
    {
      var pending: seq<nat> := [];
      for i := 0 to |members|
        invariant pending == UpTo(i)
      {
        pending := pending + [i];
      }
      this.members, this.cfg := members, cfg;
      seqs, order := members, UpTo(|members|);
      toBeFinished, finishedReqs, outputProduced := pending, [], false;
    }

    /** Sub-request i finishes. */
    method FinishSeq(i: nat, ghost registered: set<nat>)
      requires Valid() && i in toBeFinished
      modifies this
      ensures Valid() && View(registered) == Moved(old(View(registered)), i)
    {
      forall k | k in Remove(toBeFinished, i)
        ensures k in toBeFinished
      {
        RemoveSubset(toBeFinished, i, k);
      }
      toBeFinished := Remove(toBeFinished, i);
      finishedReqs := finishedReqs + [i];
    }

    /** The m best sequences, by cumulative log-probability, stable. */
    method SelectTop(m: nat, ghost registered: set<nat>)
      requires Valid() && !outputProduced && m <= |members|
      modifies this`seqs, this`order, this`outputProduced
      ensures Valid()
      ensures View(registered) ==
              old(View(registered)).(produced := true, order := Rank(Scores(members), |members|)[..m])
    {
      hide Rank, Ranked, Scores, Views, Sequence.Valid;
      var top := Rank(Scores(members), |members|)[..m];
      TopDistinct(Scores(members), top, members);
      outputProduced, order := true, top;
      seqs := Pick(members, top);
    }

    /** Streaming returns the group on reports of the first remaining sub-request;
        otherwise it is returned when the last remaining one has finished. */
    method MaybeAssembleGroup(i: nat, ghost registered: set<nat>) returns (assembled: bool)
      requires Valid() && i < |members| && (cfg.kind == DELTA ==> toBeFinished != [])
      modifies this`seqs, this`order, this`outputProduced
      ensures Valid() && (assembled, View(registered)) == MaybeAssemble(cfg, old(View(registered)), i)
      ensures assembled && cfg.kind != DELTA ==> RightNumber(cfg.realN, |members|, |seqs|)
    {
      hide Rank, Sequence.Valid, Distinct, Views, Scores, Footprint, AllValid;
      ViewsAre(members);
      if cfg.kind == DELTA {
        return toBeFinished[0] == i;
      }
      if |toBeFinished| == 1 && i in toBeFinished && IsFinished(members[i].status) {
        if !outputProduced {
          match cfg.realN {
            case None => outputProduced := true;
            case Some(m) => SelectTop(TopCount(m, |members|), registered);
          }
          return true;
        }
      }
      return false;
    }

    /** The list consists of the members at the given places. */
    ghost predicate Lists(list: seq<Sequence>, places: seq<nat>) {
      && |list| == |places| && Distinct(list)
      && forall k :: 0 <= k < |places| ==> places[k] < |members| && list[k] == members[places[k]]
    }

    /** The entries of a list of members, in order; a delta advances its sequences and no others. */
    method Gather(list: seq<Sequence>, ghost g: Group) returns (outputs: seq<Completion>)
      requires Valid() && g.streams == Views(members) && Lists(list, g.order)
      modifies list`lastOutputTextOffset, list`lastOutputTokenIdsOffset
      ensures AllValid(members)
      ensures |outputs| == |g.order|
      ensures forall k :: 0 <= k < |g.order| ==>
                g.streams[g.order[k]].Valid() && outputs[k] == Entry(cfg, g.streams[g.order[k]], k)
      ensures forall k :: 0 <= k < |members| ==> members[k].View() == AfterEmit(cfg, g, k)
    {
      assert forall k :: 0 <= k < |members| ==> g.streams[k] == members[k].View();
      hide Views, Stream.Shown, Stream.DeltaText, Stream.CumulativeText, Stream.Advance;
      outputs := CollectOutputs(list, cfg);
      forall k | 0 <= k < |members|
        ensures members[k].View() == AfterEmit(cfg, g, k) && members[k].Valid()
      {
        if k in g.order {
          var j :| 0 <= j < |g.order| && g.order[j] == k;
          assert list[j] == members[k];
        } else {
          NotPicked(members, list, g.order, k);
        }
      }
    }

    /** Output of a list of members. */
    method EmitList(list: seq<Sequence>, ghost places: seq<nat>, ghost registered: set<nat>)
      returns (out: Option<Output>)
      requires Valid() && Lists(list, places)
      modifies list`lastOutputTextOffset, list`lastOutputTokenIdsOffset
      ensures Valid()
      ensures (out, View(registered).(order := places)) ==
              ParallelSampling.Emit(cfg, old(View(registered)).(order := places))
    {
      hide Views, Scores, ParallelSampling.Emit, AllValid, AfterEmit, Entry, Wired, Distinct, Footprint;
      ghost var g := View(registered).(order := places);
      ViewsAre(members);
      ViewsAreValid(members);
      var finished := forall k :: 0 <= k < |list| ==> IsFinished(list[k].status);
      assert finished == AllFinished(g);
      if cfg.kind == FINAL_ONLY && !finished {
        EmitNothing(cfg, g);
        return None;
      }
      var outputs := Gather(list, g);
      ViewsAre(members);
      EmitValue(cfg, g, outputs, Views(members));
      out := Some(Output(outputs, finished));
    }

    /** Output of the assembled group. */
    method EmitGroup(ghost registered: set<nat>) returns (out: Option<Output>)
      requires Valid()
      modifies members`lastOutputTextOffset, members`lastOutputTokenIdsOffset
      ensures Valid() && (out, View(registered)) == ParallelSampling.Emit(cfg, old(View(registered)))
    {
      hide Views, Scores, ParallelSampling.Emit, AllValid;
      assert forall k :: 0 <= k < |seqs| ==> seqs[k] in members;
      out := EmitList(seqs, order, registered);
    }

    /** The path of a registered sub-request: returns the output, if any, and the ids that stay registered. */
    method FromRegistered(i: nat, registered: set<nat>) returns (out: Option<Output>, left: set<nat>)
      requires Valid() && i < |members| && (cfg.kind == DELTA ==> toBeFinished != [])
               && (IsFinished(members[i].status) ==> i in toBeFinished)
      modifies this, members`lastOutputTextOffset, members`lastOutputTokenIdsOffset
      ensures Valid() && (out, View(left)) == Handle(cfg, old(View(registered)), i)
    {
      hide Rank, Remove, ParallelSampling.Emit, MaybeAssemble, Views, Scores, AllValid, Distinct, Footprint;
      ViewsAre(members);
      ViewsAreValid(members);
      left := registered;
      var finished := IsFinished(members[i].status);
      var assembled := MaybeAssembleGroup(i, registered);
      if finished {
        FinishSeq(i, registered);
      }
      if !assembled {
        return None, left;
      }
      if |toBeFinished| == 0 {
        left := registered - set k | k in UpTo(|members|);
      }
      out := EmitGroup(left);
    }

    /** The path of any sub-request: one that is not registered is a plain request. A registered one must be pending
        when it finishes, and streaming asks for the first pending one. */
    method FromSeqGroup(i: nat, registered: set<nat>) returns (out: Option<Output>, left: set<nat>)
      requires Valid() && i < |members|
      requires i in registered ==>
               (cfg.kind == DELTA ==> toBeFinished != []) && (IsFinished(members[i].status) ==> i in toBeFinished)
      modifies this, members`lastOutputTextOffset, members`lastOutputTokenIdsOffset
      ensures Valid()
      ensures (out, View(left)) ==
              if i in registered then Handle(cfg, old(View(registered)), i)
                else EmitAlone(cfg, old(View(registered)), i)
    {
      hide Rank, Remove, ParallelSampling.Emit, Selected, Handle;
      if i in registered {
        out, left := FromRegistered(i, registered);
      } else {
        left := registered;
        out := EmitList([members[i]], [i], registered);
      }
    }
  }

  lemma {:induction false} RemoveSubset(s: seq<nat>, x: nat, y: nat)
    requires y in Remove(s, x)
    ensures y in s
  {
    if s[0] != x && y != s[0] {
      RemoveSubset(s[1..], x, y);
    }
  }

  function Pick(members: seq<Sequence>, top: seq<nat>): (r: seq<Sequence>)
    requires forall k :: 0 <= k < |top| ==> top[k] < |members|
  {
    seq(|top|, k requires 0 <= k < |top| => members[top[k]])
  }

  lemma TopDistinct(scores: seq<real>, top: seq<nat>, members: seq<Sequence>)
    requires |scores| == |members| && Distinct(members) && top <= Rank(scores, |scores|)
    ensures Distinct(Pick(members, top))
  {
    RankIsRanked(scores, |scores|);
    hide Rank;
    forall j, k | 0 <= j < k < |top|
      ensures members[top[j]] != members[top[k]]
    {
      assert Before(scores, top[j], top[k]);
    }
  }
}
