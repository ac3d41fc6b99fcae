/**
 * The analysis screen's simulated progress: a repeating tick that adds 2 to
 * the progress and picks a status line, and a button that either continues
 * to the results or cancels.
 */
module AnalysisFragment {

  const InitialStatus: string := "Iniciando análisis..."
  const CompletedStatus: string := "¡Análisis completado!"

  /** The status lines shown while the analysis runs. */
  const Statuses: seq<string> := [
    "Cargando documento...",
    "Extrayendo texto...",
    "Analizando habilidades técnicas...",
    "Evaluando experiencia laboral...",
    "Identificando áreas de mejora...",
    "Preparando resultados..."]

  /**
   * A snapshot of the screen's fields; `tickPending` says whether a tick is
   * posted on the handler.
   */
  datatype AnalysisState = AnalysisState(progress: int, status: string, analyzing: bool, tickPending: bool)

  /** The fields as initialised, before the first tick is posted. */
  const Initial: AnalysisState := AnalysisState(0, InitialStatus, true, false)

  /** The state once `startAnalysis` has posted the first tick. */
  const Started: AnalysisState := Initial.(tickPending := true)

  /** `(progress / 20).coerceAtMost(statuses.size - 1)` */
  function StatusIndex(progress: int): (i: nat)
    requires progress >= 0
    ensures i < |Statuses|
    ensures i == progress / 20 || (i == |Statuses| - 1 && progress / 20 >= |Statuses| - 1)
  {
    if progress / 20 < |Statuses| - 1 then progress / 20 else |Statuses| - 1
  }

  /**
   * One run of the posted tick. A tick that finds the analysis stopped does
   * nothing and does not repost itself. Otherwise progress grows by 2; at 100
   * or more it is pinned to 100, the analysis stops and nothing is reposted;
   * below that the status is picked from the list and the tick reposts itself.
   */
  function TickState(s: AnalysisState): (t: AnalysisState)
    requires s.progress >= 0
    ensures !s.analyzing ==> t == s.(tickPending := false)
    ensures s.analyzing ==> t.progress == if s.progress + 2 >= 100 then 100 else s.progress + 2
    ensures s.analyzing ==> (t.analyzing <==> t.progress < 100) && (t.tickPending <==> t.progress < 100)
  {
    if !s.analyzing then s.(tickPending := false)
    else
      var p := s.progress + 2;
      if p >= 100 then AnalysisState(100, CompletedStatus, false, false)
      else AnalysisState(p, Statuses[StatusIndex(p)], true, true)
  }

  /** The status a consistent state shows for its progress. */
  function ExpectedStatus(progress: int): string
    requires 0 <= progress
  {
    if progress == 0 then InitialStatus
    else if progress >= 100 then CompletedStatus
    else Statuses[StatusIndex(progress)]
  }

  /**
   * The invariant of the screen: progress is even and within [0, 100], the
   * status matches it, and at 100 the analysis has stopped. A tick may be
   * posted while the analysis is stopped: re-creating the view posts one
   * whatever `analyzing` says.
   */
  predicate Valid(s: AnalysisState) {
    && 0 <= s.progress <= 100
    && s.progress % 2 == 0
    && s.status == ExpectedStatus(s.progress)
    && (s.progress == 100 ==> !s.analyzing)
  }

  lemma InitialValid()
    ensures Valid(Initial) && Valid(Started)
  {
  }

  /** A tick keeps the invariant and never lowers the progress. */
  lemma TickPreservesValid(s: AnalysisState)
    requires Valid(s)
    ensures Valid(TickState(s))
    ensures TickState(s).progress >= s.progress
  {
  }

  /** While below 100 the status index is at most 4, so the last status line never shows. */
  lemma LastStatusNeverShown(s: AnalysisState)
    requires Valid(s)
    ensures 0 < s.progress < 100 ==> StatusIndex(s.progress) <= 4
    ensures s.status != Statuses[5]
  {
  }

  /** The state after `n` ticks. */
  function Ticks(s: AnalysisState, n: nat): (t: AnalysisState)
    requires Valid(s)
    ensures Valid(t)
  {
    if n == 0 then s
    else
      var before := Ticks(s, n - 1);
      TickPreservesValid(before);
      TickState(before)
  }

  /** After k < 50 ticks from the start, progress is 2k and the analysis is still running. */
  lemma {:induction false} TicksFromStart(k: nat)
    requires k <= 50
    ensures Ticks(Started, k).progress == 2 * k
    ensures k < 50 ==> Ticks(Started, k).analyzing && Ticks(Started, k).tickPending
  {
    InitialValid();
    if k > 0 {
      TicksFromStart(k - 1);
    }
  }

  /** Exactly 50 ticks take the started screen to 100%, completed, with nothing reposted. */
  lemma FiftyTicksComplete()
    ensures var done := Ticks(Started, 50);
      && done.progress == 100 && done.status == CompletedStatus
      && !done.analyzing && !done.tickPending
    ensures forall k :: 0 <= k < 50 ==> Ticks(Started, k).progress < 100
  {
    InitialValid();
    TicksFromStart(50);
    forall k | 0 <= k < 50 ensures Ticks(Started, k).progress < 100 {
      TicksFromStart(k);
    }
  }

  /**
   * A screen whose view is re-created after the analysis stopped (finished,
   * or cancelled) gets a fresh tick posted; that tick finds `analyzing` false
   * and leaves every field as it was, reposting nothing.
   */
  lemma ReopenedStoppedScreenStaysPut(s: AnalysisState)
    requires Valid(s) && !s.analyzing
    ensures var t := Ticks(s.(tickPending := true), 1);
      t.progress == s.progress && t.status == s.status && !t.analyzing && !t.tickPending
  {
  }

  /** Where the action button leads. */
  datatype Destination = ToResults | ToMain

  /**
   * The action button: at 100% it goes on to the results; before that it
   * stops the analysis, drops the posted tick and goes back.
   */
  function ActionOutcome(s: AnalysisState): (r: (Destination, AnalysisState))
    ensures r.0 == ToResults <==> s.progress >= 100
    ensures r.0 == ToResults ==> r.1 == s
    ensures r.0 == ToMain ==> r.1 == s.(analyzing := false, tickPending := false)
  {
    if s.progress >= 100 then (ToResults, s)
    else (ToMain, s.(analyzing := false, tickPending := false))
  }

  /** After cancelling, further ticks change nothing. */
  lemma CancelStopsTicks(s: AnalysisState)
    requires Valid(s) && s.progress < 100
    ensures var c := ActionOutcome(s).1;
      && Valid(c)
      && TickState(c).progress == c.progress
      && TickState(c).status == c.status
      && !TickState(c).analyzing
  {
  }

  /** The analysis screen's fields and their handlers. */
  class AnalysisScreen {
    var progress: int
    var status: string
    var analyzing: bool
    var tickPending: bool

    function State(): AnalysisState
      reads this
    {
      AnalysisState(progress, status, analyzing, tickPending)
    }

    constructor ()
      ensures State() == Initial
    {
      progress, status, analyzing, tickPending := 0, InitialStatus, true, false;
    }

    /**
     * `startAnalysis`: posts a tick, whether or not the analysis is still
     * running. It runs when the view is created, and destroying the view
     * (OnDestroyView) has removed any earlier tick, so none is posted yet.
     */
    method StartAnalysis()
      requires Valid(State()) && !tickPending
      modifies this
      ensures State() == old(State()).(tickPending := true)
      ensures Valid(State())
    {
      tickPending := true;
    }

    /** The body of the posted Runnable. */
    method Tick()
      requires Valid(State()) && tickPending
      modifies this
      ensures State() == TickState(old(State()))
      ensures Valid(State()) && progress >= old(progress)
    {
      TickPreservesValid(State());
      tickPending := false;
      if !analyzing {
        return;
      }
      progress := progress + 2;
      if progress >= 100 {
        progress := 100;
        status := CompletedStatus;
        analyzing := false;
      } else {
        status := Statuses[StatusIndex(progress)];
        tickPending := true;
      }
    }

    /** `onDestroyView`: removes every posted tick; the fields are kept. */
    method OnDestroyView()
      requires Valid(State())
      modifies this`tickPending
      ensures State() == old(State()).(tickPending := false)
      ensures Valid(State())
    {
      tickPending := false;
    }

    /** The action button's click handler. */
    method OnActionButton() returns (destination: Destination)
      requires Valid(State())
      modifies this
      ensures (destination, State()) == ActionOutcome(old(State()))
      ensures Valid(State())
    {
      if progress >= 100 {
        destination := ToResults;
      } else {
        analyzing := false;
        tickPending := false;
        destination := ToMain;
      }
    }

    /**
     * Lets the handler run posted ticks until none is left. A running analysis
     * ends at exactly 100 after (100 - progress) / 2 ticks; a stopped one runs
     * the single posted tick, which changes nothing else.
     */
    method RunPostedTicks() returns (ticks: nat)
      requires Valid(State()) && tickPending
      modifies this
      ensures State() == Ticks(old(State()), ticks)
      ensures !tickPending
      ensures old(analyzing) ==>
        && progress == 100 && status == CompletedStatus && !analyzing
        && ticks == (100 - old(progress)) / 2
      ensures !old(analyzing) ==> ticks == 1 && State() == old(State()).(tickPending := false)
    {
      ticks := 0;
      while tickPending
        invariant Valid(State())
        invariant Valid(old(State())) && State() == Ticks(old(State()), ticks)
        invariant old(analyzing) ==> progress == old(progress) + 2 * ticks
        invariant old(analyzing) && ticks > 0 ==>
          (analyzing <==> progress < 100) && (tickPending <==> progress < 100)
        invariant !old(analyzing) ==> ticks <= 1 && State() == old(State()).(tickPending := ticks == 0)
        decreases 100 - progress + (if tickPending then 1 else 0)
      {
        Tick();
        ticks := ticks + 1;
      }
    }
  }

  /** Opening the screen and letting it run: 50 ticks reach 100% and stop. */
  method RunFromStart() returns (screen: AnalysisScreen, ticks: nat)
    ensures fresh(screen)
    ensures ticks == 50 && screen.progress == 100 && !screen.analyzing
    ensures screen.State() == Ticks(Started, 50)
  {
    screen := new AnalysisScreen();
    InitialValid();
    screen.StartAnalysis();
    ticks := screen.RunPostedTicks();
  }

  /**
   * Continuing to the results and coming back: the re-created view posts a
   * tick again, which finds the analysis finished and leaves the screen at
   * 100%, completed.
   */
  method RunThenReopen() returns (screen: AnalysisScreen, ticks: nat)
    ensures fresh(screen)
    ensures ticks == 1
    ensures screen.progress == 100 && screen.status == CompletedStatus
    ensures !screen.analyzing && !screen.tickPending
  {
    var first;
    screen, first := RunFromStart();
    screen.OnDestroyView();
    screen.StartAnalysis();
    ticks := screen.RunPostedTicks();
  }
}
