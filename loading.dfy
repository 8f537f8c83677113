/** LoadingManager: several readiness signals race a forced timeout, and one
    flag, `isLoaded`, settles the race so that the completion action
    (`animateLoadingCompletion`, which reveals the page and starts the other
    managers) runs at most once.

    Every timer callback becomes an event. The image and audio listeners and
    the window `load` listener only schedule a deferred check; what the model
    receives is the firing of that check. `documentComplete` stands for
    `document.readyState === 'complete'`, and `completions` counts the calls
    of the completion action. */
module Loading {

  datatype LoadState = LoadState(isLoaded: bool, documentComplete: bool, completions: nat)

  datatype LoadEvent =
    | DocumentComplete   // document.readyState becomes 'complete'
    | ResourceCheck      // the check 500 ms after an image load/error or audio canplaythrough/error
    | DomReadyCheck      // the check 1000 ms after handleDOMReady
    | LoadingTimeout     // the forced completion 5000 ms after start

  function Initial(documentComplete: bool): LoadState {
    LoadState(false, documentComplete, 0)
  }

  /** completeLoadingProcess: a no-op once loaded, otherwise set the flag and
      run the completion action once. */
  function Complete(s: LoadState): LoadState {
    if s.isLoaded then s else s.(isLoaded := true, completions := s.completions + 1)
  }

  function Step(s: LoadState, e: LoadEvent): LoadState {
    match e
    case DocumentComplete => s.(documentComplete := true)
    case ResourceCheck => if s.documentComplete && !s.isLoaded then Complete(s) else s
    case DomReadyCheck => if !s.isLoaded then Complete(s) else s
    case LoadingTimeout => if !s.isLoaded then Complete(s) else s
  }

  function Run(s: LoadState, events: seq<LoadEvent>): LoadState
    decreases |events|
  {
    if events == [] then s else Run(Step(s, events[0]), events[1..])
  }

  /** The completion action has run once if loading is complete, and not at
      all before. */
  predicate Counted(s: LoadState) {
    s.completions == if s.isLoaded then 1 else 0
  }

  lemma CompleteIsGuarded(s: LoadState)
    ensures Complete(s).isLoaded && Complete(s).documentComplete == s.documentComplete
    ensures s.isLoaded ==> Complete(s) == s
    ensures !s.isLoaded ==> Complete(s).completions == s.completions + 1
    ensures Counted(s) ==> Counted(Complete(s))
  {
  }

  /** One deferred check runs the completion action exactly when loading is
      not complete yet and, for a resource check, the document is complete;
      the DOM-ready check and the timeout do not look at the document. */
  lemma StepCompletes(s: LoadState, e: LoadEvent)
    ensures Step(s, e).completions > s.completions
        <==> (!s.isLoaded
              && (e == DomReadyCheck || e == LoadingTimeout || (e == ResourceCheck && s.documentComplete)))
    ensures Step(s, e).completions <= s.completions + 1
    ensures Step(s, e).isLoaded == (s.isLoaded || Step(s, e).completions > s.completions)
  {
  }

  /** Over any interleaving of signals and the timeout, the completion
      action never runs a second time. */
  lemma {:induction false} RunKeepsCounted(s: LoadState, events: seq<LoadEvent>)
    requires Counted(s)
    ensures Counted(Run(s, events)) && Run(s, events).completions <= 1
    decreases |events|
  {
    if events != [] {
      RunKeepsCounted(Step(s, events[0]), events[1..]);
    }
  }

  /** Once loaded, no later event changes the flag or the count. */
  lemma {:induction false} LoadedIsFinal(s: LoadState, events: seq<LoadEvent>)
    requires s.isLoaded
    ensures Run(s, events).isLoaded && Run(s, events).completions == s.completions
    decreases |events|
  {
    if events != [] {
      LoadedIsFinal(Step(s, events[0]), events[1..]);
    }
  }

  /** If the timeout fires at all, loading ends complete with the completion
      action run exactly once. */
  lemma {:induction false} TimeoutCompletes(s: LoadState, events: seq<LoadEvent>)
    requires Counted(s) && LoadingTimeout in events
    ensures Run(s, events).isLoaded && Run(s, events).completions == 1
    decreases |events|
  {
    var t := Step(s, events[0]);
    if events[0] == LoadingTimeout {
      LoadedIsFinal(t, events[1..]);
    } else {
      assert LoadingTimeout in events[1..];
      TimeoutCompletes(t, events[1..]);
    }
  }

  /** Whether the check at position i finds its condition true: the DOM-ready
      check and the timeout only need the flag still clear, a resource check
      also needs the document complete by then. */
  predicate Fires(documentComplete: bool, events: seq<LoadEvent>, i: nat)
    requires i < |events|
  {
    || events[i] == DomReadyCheck
    || events[i] == LoadingTimeout
    || (events[i] == ResourceCheck && (documentComplete || DocumentComplete in events[..i]))
  }

  ghost predicate FiresSomewhere(documentComplete: bool, events: seq<LoadEvent>) {
    exists i: nat :: i < |events| && Fires(documentComplete, events, i)
  }

  lemma FiresShift(documentComplete: bool, events: seq<LoadEvent>, j: nat)
    requires j + 1 < |events|
    ensures Fires(documentComplete, events, j + 1)
        <==> Fires(documentComplete || events[0] == DocumentComplete, events[1..], j)
  {
    assert events[..j + 1] == [events[0]] + events[1..][..j];
  }

  lemma FiresSomewhereSplit(documentComplete: bool, events: seq<LoadEvent>)
    requires events != []
    ensures FiresSomewhere(documentComplete, events)
        <==> (Fires(documentComplete, events, 0)
              || FiresSomewhere(documentComplete || events[0] == DocumentComplete, events[1..]))
  {
    var d' := documentComplete || events[0] == DocumentComplete;
    if FiresSomewhere(d', events[1..]) {
      var j: nat :| j < |events[1..]| && Fires(d', events[1..], j);
      FiresShift(documentComplete, events, j);
      assert Fires(documentComplete, events, j + 1);
    }
    if FiresSomewhere(documentComplete, events) && !Fires(documentComplete, events, 0) {
      var i: nat :| i < |events| && Fires(documentComplete, events, i);
      FiresShift(documentComplete, events, i - 1);
      assert Fires(d', events[1..], i - 1);
    }
  }

  /** Loading ends complete exactly when it was already complete or some
      check fired while its condition held. */
  lemma {:induction false} CompletesIff(s: LoadState, events: seq<LoadEvent>)
    ensures Run(s, events).isLoaded <==> s.isLoaded || FiresSomewhere(s.documentComplete, events)
    decreases |events|
  {
    if events != [] {
      var t := Step(s, events[0]);
      CompletesIff(t, events[1..]);
      FiresSomewhereSplit(s.documentComplete, events);
      assert t.isLoaded <==> s.isLoaded || Fires(s.documentComplete, events, 0);
      assert t.documentComplete <==> s.documentComplete || events[0] == DocumentComplete;
    }
  }

  /** The manager's loading state, one method per kind of timer firing. */
  class LoadingManager {
    var isLoaded: bool
    var documentComplete: bool
    var completions: nat

    function State(): LoadState
      reads this
    {
      LoadState(isLoaded, documentComplete, completions)
    }

    ghost predicate Valid()
      reads this
    {
      Counted(State())
    }

    /** `new AppState()` with the document's ready state at construction. */
    constructor (documentComplete: bool)
      ensures Valid() && State() == Initial(documentComplete)
    {
      isLoaded := false;
      this.documentComplete := documentComplete;
      completions := 0;
    }

    method DocumentBecameComplete()
      requires Valid()
      modifies this
      ensures Valid() && State() == Step(old(State()), DocumentComplete)
    {
      documentComplete := true;
    }

    /** The callback that handleResourceLoaded schedules. */
    method ResourceCheckFired()
      requires Valid()
      modifies this
      ensures Valid() && State() == Step(old(State()), ResourceCheck)
      ensures completions == old(completions) + (if old(documentComplete && !isLoaded) then 1 else 0)
    {
      if documentComplete && !isLoaded {
        CompleteLoadingProcess();
      }
    }

    /** The callback that handleDOMReady schedules. */
    method DomReadyCheckFired()
      requires Valid()
      modifies this
      ensures Valid() && State() == Step(old(State()), DomReadyCheck)
      ensures isLoaded
    {
      if !isLoaded {
        CompleteLoadingProcess();
      }
    }

    /** The callback that setLoadingTimeout schedules. */
    method TimeoutFired()
      requires Valid()
      modifies this
      ensures Valid() && State() == Step(old(State()), LoadingTimeout)
      ensures isLoaded && completions == 1
    {
      if !isLoaded {
        CompleteLoadingProcess();
      }
    }

    method CompleteLoadingProcess()
      requires Valid()
      modifies this
      ensures Valid() && State() == Complete(old(State()))
      ensures old(isLoaded) ==> unchanged(this)
    {
      if isLoaded {
        return;
      }
      isLoaded := true;
      AnimateLoadingCompletion();
    }

    /** The completion action itself; what it does to the page is not part
        of this model, only that it ran. */
    method AnimateLoadingCompletion()
      modifies this`completions
      ensures completions == old(completions) + 1
    {
      completions := completions + 1;
    }
  }
}
