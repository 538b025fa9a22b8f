/**
 The refresh flags of a connected server: marks, and takes whose three swaps are separate steps.

 A trace is the order in which the atomic stores and swaps of every task happen.
 */
module RefreshState {
  import opened Bytes
  import opened Notifications

  datatype Section = Tools | Resources | Prompts

  datatype Step = Mark(section: Section) | Swap(section: Section)

  datatype Snapshot = Snapshot(tools: bool, resources: bool, prompts: bool)

  /** The flag of one section after a trace. */
  predicate Dirty(trace: seq<Step>, section: Section) {
    trace != [] &&
    var last := trace[|trace| - 1];
    if last.section == section then last.Mark? else Dirty(trace[..|trace| - 1], section)
  }

  /** This step marks the section, and no later one swaps it. */
  predicate Unswapped(trace: seq<Step>, j: nat, section: Section)
    requires j < |trace|
  {
    trace[j] == Mark(section) && Swap(section) !in trace[j + 1..]
  }

  /** Some mark of the section comes after its last swap. */
  predicate MarkedSinceSwap(trace: seq<Step>, section: Section) {
    exists j :: 0 <= j < |trace| && Unswapped(trace, j, section)
  }

  lemma DirtyStep(trace: seq<Step>, step: Step, section: Section)
    ensures Dirty(trace + [step], section) == if step.section == section then step.Mark? else Dirty(trace, section)
  {
    assert (trace + [step])[..|trace|] == trace;
  }

  lemma UnswappedStep(front: seq<Step>, last: Step, j: nat, section: Section)
    requires j < |front|
    ensures Unswapped(front + [last], j, section) <==> Unswapped(front, j, section) && last != Swap(section)
  {
    assert (front + [last])[j + 1..] == front[j + 1..] + [last];
  }

  /** The flag is set exactly when its section was marked since its last swap. */
  lemma {:induction false} DirtyMeansMarked(trace: seq<Step>, section: Section)
    ensures Dirty(trace, section) <==> MarkedSinceSwap(trace, section)
  {
    if trace != [] {
      var n := |trace| - 1;
      var front, last := trace[..n], trace[n];
      DirtyMeansMarked(front, section);
      assert trace == front + [last] && trace[n + 1..] == [];
      forall j | 0 <= j < n
        ensures Unswapped(trace, j, section) <==> Unswapped(front, j, section) && last != Swap(section)
      {
        UnswappedStep(front, last, j, section);
      }
      assert Unswapped(trace, n, section) <==> last == Mark(section);
      hide Unswapped;
      if MarkedSinceSwap(front, section) {
        var j :| 0 <= j < n && Unswapped(front, j, section);
        assert last != Swap(section) ==> Unswapped(trace, j, section);
      }
    }
  }

  /** The first swap of a section after a position, or the end of the trace. */
  function NextSwap(trace: seq<Step>, from: nat, section: Section): (i: nat)
    requires from <= |trace|
    ensures from <= i <= |trace|
    ensures i < |trace| ==> trace[i] == Swap(section)
    ensures forall k :: from <= k < i ==> trace[k] != Swap(section)
    decreases |trace| - from
  {
    if from == |trace| || trace[from] == Swap(section) then from else NextSwap(trace, from + 1, section)
  }

  /** No mark is lost: the next swap of its section reports it, and until then the flag is set. */
  lemma MarkIsReported(trace: seq<Step>, j: nat, i: nat)
    requires j < |trace| && trace[j].Mark?
    requires j < i <= NextSwap(trace, j + 1, trace[j].section)
    ensures Dirty(trace[..i], trace[j].section)
  {
    var prefix := trace[..i];
    assert prefix[j] == trace[j];
    forall k | j + 1 <= k < i ensures prefix[k] != Swap(trace[j].section) {
      assert prefix[k] == trace[k];
    }
    assert Unswapped(prefix, j, trace[j].section);
    DirtyMeansMarked(prefix, trace[j].section);
  }

  /** How many swaps of a section report true. */
  function Reports(trace: seq<Step>, section: Section): nat {
    if trace == [] then 0
    else
      var front, last := trace[..|trace| - 1], trace[|trace| - 1];
      Reports(front, section) + if last == Swap(section) && Dirty(front, section) then 1 else 0
  }

  /** How many marks find their flag clear. The others coalesce with one that is still unreported. */
  function FirstMarks(trace: seq<Step>, section: Section): nat {
    if trace == [] then 0
    else
      var front, last := trace[..|trace| - 1], trace[|trace| - 1];
      FirstMarks(front, section) + if last == Mark(section) && !Dirty(front, section) then 1 else 0
  }

  /** Marks are conserved: each one that does not coalesce is reported once, or its flag is still set. */
  lemma {:induction false} MarksAreConserved(trace: seq<Step>, section: Section)
    ensures FirstMarks(trace, section) == Reports(trace, section) + if Dirty(trace, section) then 1 else 0
  {
    if trace != [] {
      MarksAreConserved(trace[..|trace| - 1], section);
    }
  }

  // ----- one take among other tasks -----

  /** The whole trace of a take: what other tasks do between its swaps is arbitrary. */
  function TakeTrace(before: seq<Step>, first: seq<Step>, second: seq<Step>): seq<Step> {
    before + [Swap(Tools)] + first + [Swap(Resources)] + second + [Swap(Prompts)]
  }

  function TakeReport(before: seq<Step>, first: seq<Step>, second: seq<Step>): Snapshot {
    Snapshot(Dirty(before, Tools),
             Dirty(before + [Swap(Tools)] + first, Resources),
             Dirty(before + [Swap(Tools)] + first + [Swap(Resources)] + second, Prompts))
  }

  function Reported(s: Snapshot, section: Section): bool {
    match section
    case Tools => s.tools
    case Resources => s.resources
    case Prompts => s.prompts
  }

  /** Steps that do not swap a section leave its flag set. */
  lemma {:induction false} StaysDirty(trace: seq<Step>, more: seq<Step>, section: Section)
    requires Dirty(trace, section)
    requires Swap(section) !in more
    ensures Dirty(trace + more, section)
  {
    if more == [] {
      assert trace + more == trace;
    } else {
      var front, last := more[..|more| - 1], more[|more| - 1];
      assert more == front + [last] && trace + more == (trace + front) + [last];
      StaysDirty(trace, front, section);
      DirtyStep(trace + front, last, section);
    }
  }

  /**
   A take reports every section that was marked before it started, unless another task took that
   section while the take was under way.
   */
  lemma TakeReportsPending(before: seq<Step>, first: seq<Step>, second: seq<Step>, section: Section)
    requires MarkedSinceSwap(before, section)
    ensures Reported(TakeReport(before, first, second), section) || Swap(section) in first || Swap(section) in second
  {
    DirtyMeansMarked(before, section);
    var others := [Swap(Tools)] + first;
    var all := others + [Swap(Resources)] + second;
    assert before + [Swap(Tools)] + first == before + others;
    assert before + [Swap(Tools)] + first + [Swap(Resources)] + second == before + all;
    if section == Resources && Swap(section) !in first {
      StaysDirty(before, others, section);
    } else if section == Prompts && Swap(section) !in first && Swap(section) !in second {
      StaysDirty(before, all, section);
    }
  }

  /** Without other tasks, a take reports what a snapshot shows, and a second take reports nothing. */
  lemma QuietTakeClears(before: seq<Step>)
    ensures var s := TakeReport(before, [], []);
      s == Snapshot(Dirty(before, Tools), Dirty(before, Resources), Dirty(before, Prompts))
    ensures TakeReport(TakeTrace(before, [], []), [], []) == Snapshot(false, false, false)
  {
    QuietTakeReport(before);
    var after := TakeTrace(before, [], []);
    QuietTakeReport(after);
    assert after == before + [Swap(Tools)] + [Swap(Resources)] + [Swap(Prompts)];
    forall section ensures !Dirty(after, section) {
      DirtyStep(before, Swap(Tools), section);
      DirtyStep(before + [Swap(Tools)], Swap(Resources), section);
      DirtyStep(before + [Swap(Tools)] + [Swap(Resources)], Swap(Prompts), section);
    }
  }

  lemma QuietTakeReport(before: seq<Step>)
    ensures TakeReport(before, [], [])
         == Snapshot(Dirty(before, Tools), Dirty(before, Resources), Dirty(before, Prompts))
  {
    assert before + [Swap(Tools)] + [] == before + [Swap(Tools)];
    assert before + [Swap(Tools)] + [Swap(Resources)] + [] == before + [Swap(Tools)] + [Swap(Resources)];
    DirtyStep(before, Swap(Tools), Resources);
    DirtyStep(before, Swap(Tools), Prompts);
    DirtyStep(before + [Swap(Tools)], Swap(Resources), Prompts);
  }

  /** The section that a server notification marks. */
  function Observed(n: TypedNotification): Option<Section> {
    match n
    case ToolListChanged(_) => Some(Tools)
    case ResourceListChanged(_) => Some(Resources)
    case PromptListChanged(_) => Some(Prompts)
    case _ => None
  }

  /** The method of the notification that the list of a section has changed. */
  function ListChanged(s: Section): Bytes {
    match s
    case Tools => "notifications/tools/list_changed"
    case Resources => "notifications/resources/list_changed"
    case Prompts => "notifications/prompts/list_changed"
  }

  function SectionTag(s: Section): Tag {
    match s case Tools => ToolsTag case Resources => ResourcesTag case Prompts => PromptsTag
  }

  lemma SectionTagText(s: Section)
    ensures TagText(SectionTag(s)) == ListChanged(s)
  {
  }

  /** A section is marked exactly by the notification that its list changed. */
  lemma ObservedByName(n: TypedNotification, section: Section)
    ensures Observed(n) == Some(section) <==> MethodName(n) == ListChanged(section)
  {
    TagsAgree(n);
    SectionTagText(section);
    TagsDiffer();
    hide MethodName, TagText, ListChanged;
    assert Observed(n) == Some(section) <==> TagOf(n) == SectionTag(section);
  }

  // ----- the shared flags -----

  /** The three atomic flags. Each method that touches one flag is one atomic step. */
  class McpApiRefreshState {
    var tools: bool
    var resources: bool
    var prompts: bool
    ghost var trace: seq<Step>

    ghost predicate Valid()
      reads this
    {
      tools == Dirty(trace, Tools) && resources == Dirty(trace, Resources) && prompts == Dirty(trace, Prompts)
    }

    constructor ()
      ensures Valid() && trace == []
    {
      tools, resources, prompts := false, false, false;
      trace := [];
    }

    ghost method Record(step: Step)
      modifies `trace
      ensures trace == old(trace) + [step]
      ensures forall section :: Dirty(trace, section) == if step.section == section then step.Mark? else old(Dirty(trace, section))
    {
      forall section { DirtyStep(trace, step, section); }
      trace := trace + [step];
    }

    method MarkTools()
      requires Valid()
      modifies this
      ensures Valid() && trace == old(trace) + [Mark(Tools)]
    {
      Record(Mark(Tools));
      tools := true;
    }

    method MarkResources()
      requires Valid()
      modifies this
      ensures Valid() && trace == old(trace) + [Mark(Resources)]
    {
      Record(Mark(Resources));
      resources := true;
    }

    method MarkPrompts()
      requires Valid()
      modifies this
      ensures Valid() && trace == old(trace) + [Mark(Prompts)]
    {
      Record(Mark(Prompts));
      prompts := true;
    }

    method ObserveServerNotification(notification: TypedNotification)
      requires Valid()
      modifies this
      ensures Valid()
      ensures trace == old(trace) + match Observed(notification) case Some(section) => [Mark(section)] case None => []
    {
      match notification
      case ToolListChanged(_) => MarkTools();
      case ResourceListChanged(_) => MarkResources();
      case PromptListChanged(_) => MarkPrompts();
      case _ =>
    }

    /** One atomic swap with false. */
    method SwapFlag(section: Section) returns (was: bool)
      requires Valid()
      modifies this
      ensures Valid() && trace == old(trace) + [Swap(section)]
      ensures was == MarkedSinceSwap(old(trace), section)
    {
      DirtyMeansMarked(trace, section);
      Record(Swap(section));
      match section
      case Tools => was := tools; tools := false;
      case Resources => was := resources; resources := false;
      case Prompts => was := prompts; prompts := false;
    }

    /** What other tasks do in between: any steps. */
    method Interfere(steps: seq<Step>)
      requires Valid()
      modifies this
      ensures Valid() && trace == old(trace) + steps
    {
      var i := 0;
      while i < |steps|
        invariant i <= |steps| && Valid() && trace == old(trace) + steps[..i]
      {
        match steps[i] {
          case Mark(Tools) => MarkTools();
          case Mark(Resources) => MarkResources();
          case Mark(Prompts) => MarkPrompts();
          case Swap(section) => var _ := SwapFlag(section);
        }
        i := i + 1;
      }
      assert steps[..i] == steps;
    }

    method ReadSnapshot() returns (s: Snapshot)
      requires Valid()
      ensures forall section :: Reported(s, section) == MarkedSinceSwap(trace, section)
    {
      forall section { DirtyMeansMarked(trace, section); }
      s := Snapshot(tools, resources, prompts);
    }

    /** Three swaps, with the steps of other tasks between them. */
    method Take(first: seq<Step>, second: seq<Step>) returns (s: Snapshot)
      requires Valid()
      modifies this
      ensures Valid() && trace == TakeTrace(old(trace), first, second)
      ensures s == TakeReport(old(trace), first, second)
    {
      DirtyMeansMarked(trace, Tools);
      var t := SwapFlag(Tools);
      Interfere(first);
      DirtyMeansMarked(trace, Resources);
      var r := SwapFlag(Resources);
      Interfere(second);
      DirtyMeansMarked(trace, Prompts);
      var p := SwapFlag(Prompts);
      s := Snapshot(t, r, p);
    }
  }
}
