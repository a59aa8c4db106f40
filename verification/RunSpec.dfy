/** `services/orchestrator/activities/persistence.py`: the steps that write a run's stored
    specification, each of them atomic, in any order. */
module RunSpec {
  import opened Common

  /** A JSON value. */
  datatype Value =
    | Null
    | Number(n: real)
    | Text(s: string)
    | List(items: seq<Value>)
    | Record(fields: map<string, Value>)

  type Spec = map<string, Value>

  /** Python's `not in (None, [], {})`. */
  predicate IsFilled(v: Value) { v != Null && v != List([]) && v != Record(map[]) }

  const PROGRESS_KEYS: seq<string> := ["stages", "counters", "candidates", "current_best"]

  /** What a progress write stores. */
  datatype Progress = Progress(counters: Value, candidates: Value, currentBest: Value, summary: Value, narrative: Value)

  datatype Event = Recorded(stage: string, status: string) | Saved(saved: Spec) | Persisted(progress: Progress)

  // ----- stages -----

  function StagesOf(spec: Spec): seq<Value> {
    if "stages" in spec && spec["stages"].List? then spec["stages"].items else []
  }

  predicate Names(item: Value, stage: string) {
    item.Record? && "stage" in item.fields && item.fields["stage"] == Text(stage)
  }

  function WithStatus(item: Value, status: string): Value
    requires item.Record?
  {
    Record(item.fields["status" := Text(status)])
  }

  function NewItem(stage: string, status: string): Value {
    Record(map["stage" := Text(stage), "status" := Text(status)])
  }

  /** The list after recording: the first entry of that stage updated, or a new one behind. */
  function Marked(items: seq<Value>, stage: string, status: string): seq<Value> {
    if items == [] then [NewItem(stage, status)]
    else if Names(items[0], stage) then [WithStatus(items[0], status)] + items[1..]
    else [items[0]] + Marked(items[1..], stage, status)
  }

  /** The status of the first entry of a stage. */
  function StatusOf(items: seq<Value>, stage: string): Option<Value> {
    if items == [] then None
    else if Names(items[0], stage) then if "status" in items[0].fields then Some(items[0].fields["status"])
      else Some(Null)
    else StatusOf(items[1..], stage)
  }

  /** How many entries a stage has. */
  function Entries(items: seq<Value>, stage: string): nat {
    if items == [] then 0 else (if Names(items[0], stage) then 1 else 0) + Entries(items[1..], stage)
  }

  /** Recording changes the status of its stage and of no other, and adds an entry only if there was none. */
  lemma {:induction false} MarkedIsRight(items: seq<Value>, stage: string, status: string, other: string)
    ensures StatusOf(Marked(items, stage, status), other) == if other == stage then Some(Text(status))
      else StatusOf(items, other)
    ensures Entries(Marked(items, stage, status), other) ==
      if other == stage && Entries(items, stage) == 0 then 1 else Entries(items, other)
  {
    if items != [] {
      if Names(items[0], stage) {
        var marked := WithStatus(items[0], status);
        assert ([marked] + items[1..])[1..] == items[1..];
        assert Names(marked, other) <==> Names(items[0], other);
      } else {
        MarkedIsRight(items[1..], stage, status, other);
        assert ([items[0]] + Marked(items[1..], stage, status))[1..] == Marked(items[1..], stage, status);
      }
    } else {
      assert [NewItem(stage, status)][1..] == [];
    }
  }

  // ----- the steps on the specification -----

  function AfterRecord(spec: Spec, stage: string, status: string): Spec {
    spec["stages" := List(Marked(StagesOf(spec), stage, status))]
  }

  /** The saved specification, except for progress fields that are already filled. */
  function Merged(saved: Spec, existing: Spec): (r: Spec)
    ensures forall k :: k in r <==> k in saved || (k in PROGRESS_KEYS && k in existing && IsFilled(existing[k]))
    ensures forall k | k in r :: r[k] == if k in PROGRESS_KEYS && k in existing && IsFilled(existing[k])
      then existing[k] else saved[k]
  {
    saved + map k | k in existing && k in PROGRESS_KEYS && IsFilled(existing[k]) :: existing[k]
  }

  function AfterPersist(spec: Spec, p: Progress): Spec {
    spec["counters" := p.counters]["candidates" := p.candidates]["current_best" := p.currentBest]
        ["summary" := p.summary]["narrative" := p.narrative]
  }

  function After(spec: Spec, e: Event): Spec {
    match e
    case Recorded(stage, status) => AfterRecord(spec, stage, status)
    case Saved(saved) => Merged(saved, spec)
    case Persisted(p) => AfterPersist(spec, p)
  }

  /** The specification after a whole history. */
  function Run(spec: Spec, events: seq<Event>): Spec {
    if events == [] then spec else After(Run(spec, events[..|events| - 1]), events[|events| - 1])
  }

  // ----- the activities -----

  lemma {:induction false} MarkedSkips(items: seq<Value>, k: nat, stage: string, status: string)
    requires k <= |items| && forall i | 0 <= i < k :: !Names(items[i], stage)
    ensures Marked(items, stage, status) == items[..k] + Marked(items[k..], stage, status)
  {
    if k > 0 {
      MarkedSkips(items[1..], k - 1, stage, status);
      assert items[1..][k - 1..] == items[k..] && items[..k] == [items[0]] + items[1..][..k - 1];
    } else {
      assert items[0..] == items;
    }
  }

  /** The loop over the stage entries: update the first that fits, or append. */
  method MarkStage(items: seq<Value>, stage: string, status: string) returns (stages: seq<Value>)
    ensures stages == Marked(items, stage, status)
  {
    stages := items;
    for k := 0 to |items|
      invariant stages == items && forall i | 0 <= i < k :: !Names(items[i], stage)
    {
      if Names(stages[k], stage) {
        stages := stages[k := WithStatus(stages[k], status)];
        MarkedSkips(items, k, stage, status);
        assert items[k..][1..] == items[k + 1..];
        return;
      }
    }
    MarkedSkips(items, |items|, stage, status);
    stages := stages + [NewItem(stage, status)];
  }

  /** The loop over the progress keys. */
  method Merge(saved: Spec, existing: Spec) returns (merged: Spec)
    ensures merged == Merged(saved, existing)
  {
    merged := saved;
    for i := 0 to |PROGRESS_KEYS|
      invariant forall k :: k in merged <==>
        k in saved || (k in PROGRESS_KEYS[..i] && k in existing && IsFilled(existing[k]))
      invariant forall k | k in merged ::
        merged[k] == if k in PROGRESS_KEYS[..i] && k in existing && IsFilled(existing[k]) then existing[k] else saved[k]
    {
      var key := PROGRESS_KEYS[i];
      assert PROGRESS_KEYS[..i + 1] == PROGRESS_KEYS[..i] + [key];
      if key in existing && IsFilled(existing[key]) {
        merged := merged[key := existing[key]];
      }
    }
    assert PROGRESS_KEYS[..|PROGRESS_KEYS|] == PROGRESS_KEYS;
  }

  /** A row of the stage table: what was recorded, and which of its two times are set. */
  datatype StageRow = StageRow(run: string, stage: string, status: string, started: bool, ended: bool)

  class RunTable {
    var runs: map<string, Spec>
    var stageRows: seq<StageRow>

    constructor ()
      ensures runs == map[] && stageRows == []
    {
      runs, stageRows := map[], [];
    }

    /** Adds a row in any case, and updates the run's specification if there is such a run. */
    method RecordRunStage(run: string, stage: string, status: string)
      modifies this
      ensures stageRows == old(stageRows) + [StageRow(run, stage, status, status == "started",
        status == "completed" || status == "failed")]
      ensures runs == if run in old(runs) then old(runs)[run := After(old(runs)[run], Recorded(stage, status))]
        else old(runs)
    {
      stageRows := stageRows + [StageRow(run, stage, status, status == "started", status in {"completed", "failed"})];
      if run in runs {
        var spec := runs[run];
        var stages := MarkStage(StagesOf(spec), stage, status);
        spec := spec["stages" := List(stages)];
        runs := runs[run := spec];
      }
    }

    method UpdateRunSpec(run: string, saved: Spec)
      modifies `runs
      ensures runs == if run in old(runs) then old(runs)[run := After(old(runs)[run], Saved(saved))] else old(runs)
    {
      if run !in runs {
        return;
      }
      var merged := Merge(saved, runs[run]);
      runs := runs[run := merged];
    }

    method PersistRunProgress(run: string, p: Progress)
      modifies `runs
      ensures runs == if run in old(runs) then old(runs)[run := After(old(runs)[run], Persisted(p))] else old(runs)
    {
      if run in runs {
        var spec := runs[run];
        spec := spec["counters" := p.counters];
        spec := spec["candidates" := p.candidates];
        spec := spec["current_best" := p.currentBest];
        spec := spec["summary" := p.summary];
        spec := spec["narrative" := p.narrative];
        runs := runs[run := spec];
      }
    }
  }

  // ----- stages over whole histories -----

  /** The latest recorded status of a stage, and before any the one it started with. */
  function Latest(events: seq<Event>, stage: string, initial: Option<Value>): Option<Value> {
    if events == [] then initial
    else
      var last := events[|events| - 1];
      if last.Recorded? && last.stage == stage then Some(Text(last.status))
      else Latest(events[..|events| - 1], stage, initial)
  }

  ghost predicate HasStages(spec: Spec) { "stages" in spec && spec["stages"].List? && spec["stages"].items != [] }

  /** A save, however stale, keeps the stages; so does a progress write. */
  lemma StepOnStages(spec: Spec, e: Event)
    requires HasStages(spec)
    ensures HasStages(After(spec, e))
    ensures StagesOf(After(spec, e)) == if e.Recorded? then Marked(StagesOf(spec), e.stage, e.status)
      else StagesOf(spec)
  {
    if e.Saved? {
      assert PROGRESS_KEYS[0] == "stages" && IsFilled(spec["stages"]);
    }
  }

  /** Under any interleaving, starting from a non-empty list with at most one entry for the stage:
      it still has at most one entry, exactly one once it is recorded, and that entry has the
      latest recorded status. */
  lemma {:induction false} StagesAreLatest(spec: Spec, events: seq<Event>, stage: string)
    requires HasStages(spec) && Entries(StagesOf(spec), stage) <= 1
    ensures HasStages(Run(spec, events)) && Entries(StagesOf(Run(spec, events)), stage) <= 1
    ensures StatusOf(StagesOf(Run(spec, events)), stage) == Latest(events, stage, StatusOf(StagesOf(spec), stage))
  {
    if events != [] {
      var before, last := events[..|events| - 1], events[|events| - 1];
      StagesAreLatest(spec, before, stage);
      StepOnStages(Run(spec, before), last);
      if last.Recorded? { MarkedIsRight(StagesOf(Run(spec, before)), last.stage, last.status, stage); }
    }
  }

  // ----- progress fields over whole histories -----

  datatype Field = Counters | Candidates | CurrentBest

  function Key(f: Field): string {
    match f case Counters => "counters" case Candidates => "candidates" case CurrentBest => "current_best"
  }

  function Part(p: Progress, f: Field): Value {
    match f case Counters => p.counters case Candidates => p.candidates case CurrentBest => p.currentBest
  }

  /** No progress write among the events. */
  ghost predicate Quiet(events: seq<Event>) { forall k | 0 <= k < |events| :: !events[k].Persisted? }

  /** A filled progress field survives everything but the next progress write. */
  lemma {:induction false} FilledSurvives(spec: Spec, events: seq<Event>, f: Field)
    requires Quiet(events) && Key(f) in spec && IsFilled(spec[Key(f)])
    ensures var r := Run(spec, events); Key(f) in r && r[Key(f)] == spec[Key(f)]
  {
    if events != [] {
      FilledSurvives(spec, events[..|events| - 1], f);
    }
  }

  /** A field written by a progress write keeps the written value, whatever follows up to the next
      one, exactly if that value is filled: an empty one can be overwritten by a stale save. */
  lemma WrittenSurvivesIfFilled(spec: Spec, p: Progress, f: Field)
    ensures IsFilled(Part(p, f)) <==>
      forall events | Quiet(events) ::
        Key(f) in Run(After(spec, Persisted(p)), events) && Run(After(spec, Persisted(p)), events)[Key(f)] == Part(p, f)
  {
    var written := After(spec, Persisted(p));
    assert Key(f) in written && written[Key(f)] == Part(p, f);
    if IsFilled(Part(p, f)) {
      forall events | Quiet(events)
        ensures Key(f) in Run(written, events) && Run(written, events)[Key(f)] == Part(p, f)
      {
        FilledSurvives(written, events, f);
      }
    } else {
      var stale := [Saved(map[Key(f) := Number(1.0)])];
      assert Quiet(stale) && stale[..0] == [];
      assert Run(written, stale) == Merged(map[Key(f) := Number(1.0)], written);
    }
  }

  /** The latest progress write, if any. */
  function LatestProgress(events: seq<Event>): Option<Progress> {
    if events == [] then None
    else
      var last := events[|events| - 1];
      if last.Persisted? then Some(last.progress) else LatestProgress(events[..|events| - 1])
  }

  /** Under any interleaving the stored field is that of the latest progress write, if filled. */
  lemma {:induction false} ProgressIsLatest(spec: Spec, events: seq<Event>, f: Field)
    requires LatestProgress(events).Some? && IsFilled(Part(LatestProgress(events).value, f))
    ensures var r := Run(spec, events); Key(f) in r && r[Key(f)] == Part(LatestProgress(events).value, f)
  {
    var before, last := events[..|events| - 1], events[|events| - 1];
    if !last.Persisted? { ProgressIsLatest(spec, before, f); }
  }

  function NarrativeOf(spec: Spec): Option<Value> { if "narrative" in spec then Some(spec["narrative"]) else None }

  /** The latest saved copy, if any. */
  function LatestSave(events: seq<Event>): Option<Spec> {
    if events == [] then None
    else
      var last := events[|events| - 1];
      if last.Saved? then Some(last.saved) else LatestSave(events[..|events| - 1])
  }

  /** The narrative is not a progress field: up to the next progress write it is that of the latest
      saved copy, which may have none, and before any save it stays. */
  lemma {:induction false} NarrativeIsThatOfTheSave(spec: Spec, events: seq<Event>)
    requires Quiet(events)
    ensures NarrativeOf(Run(spec, events)) == if LatestSave(events).Some? then NarrativeOf(LatestSave(events).value)
      else NarrativeOf(spec)
  {
    if events != [] {
      var before, last := events[..|events| - 1], events[|events| - 1];
      NarrativeIsThatOfTheSave(spec, before);
      assert "narrative" !in PROGRESS_KEYS;
      assert !last.Persisted?;
    }
  }

  /** So a written narrative survives exactly if nothing is saved after it, or the latest save has it. */
  lemma NarrativeSurvivesIfSaved(spec: Spec, p: Progress, events: seq<Event>)
    requires Quiet(events)
    ensures NarrativeOf(Run(After(spec, Persisted(p)), events)) == Some(p.narrative) <==>
      LatestSave(events).Some? ==> NarrativeOf(LatestSave(events).value) == Some(p.narrative)
  {
    NarrativeIsThatOfTheSave(After(spec, Persisted(p)), events);
  }
}
