/** The activation level: 0 is off, 1 serves the debugger, 2 serves the BSD stack as well. */
module Activation {

  type Level = n: nat | n <= 2

  /** What the platform answers while level 1 is being enabled: whether the provider can be
      opened, and whether the medium can be selected. */
  datatype Answers = Answers(opens: bool, selects: bool)

  datatype Request =
    | EnableBsd(answers: Answers)
    | DisableBsd
    | EnableDebugger(answers: Answers)
    | DisableDebugger

  /** Which of the two clients are enabled, and whether the provider is stranded: left open by an
      attempt at level 1 that failed. */
  datatype Clients = Clients(bsd: bool, kdp: bool, stranded: bool)
  {
    /** Off, a client gets in exactly when the platform agrees to everything; beside the other
        client it always does. Only a failed attempt strands the provider. */
    function After(r: Request): Clients {
      match r
      case EnableBsd(a) => Enabled(a).(bsd := bsd || kdp || Agrees(a))
      case DisableBsd => Clients(false, kdp, stranded)
      case EnableDebugger(a) => Enabled(a).(kdp := bsd || kdp || Agrees(a))
      case DisableDebugger => Clients(bsd, false, stranded)
    }

    function Enabled(a: Answers): Clients {
      if bsd || kdp then this else this.(stranded := !Agrees(a) && (a.opens || stranded))
    }
  }

  predicate Agrees(a: Answers) { a.opens && a.selects }

  function Outcome(c: Clients, requests: seq<Request>): Clients {
    if requests == [] then c
    else Outcome(c, requests[..|requests| - 1]).After(requests[|requests| - 1])
  }

  /** The `i`-th request has let the BSD stack in, and none behind it has put it out. */
  ghost predicate BsdSince(c: Clients, requests: seq<Request>, i: nat)
    requires i < |requests|
  {
    && requests[i].EnableBsd? && GetsIn(Outcome(c, requests[..i]), requests[i].answers)
    && forall j | i < j < |requests| :: !requests[j].DisableBsd?
  }

  ghost predicate DebuggerSince(c: Clients, requests: seq<Request>, i: nat)
    requires i < |requests|
  {
    && requests[i].EnableDebugger? && GetsIn(Outcome(c, requests[..i]), requests[i].answers)
    && forall j | i < j < |requests| :: !requests[j].DisableDebugger?
  }

  /** With a client enabled nothing needs to be asked of the platform. */
  predicate GetsIn(c: Clients, a: Answers) { c.bsd || c.kdp || (a.opens && a.selects) }

  /** The stack is enabled exactly if a request of its own has let it in since it was last
      disabled, whatever the debugger has asked for. */
  lemma {:induction false} BsdEnabledIff(c: Clients, requests: seq<Request>)
    ensures Outcome(c, requests).bsd <==>
            || (c.bsd && forall j | 0 <= j < |requests| :: !requests[j].DisableBsd?)
            || exists i | 0 <= i < |requests| :: BsdSince(c, requests, i)
  {
    if requests != [] {
      var n := |requests| - 1;
      var before, last := requests[..n], requests[n];
      BsdEnabledIff(c, before);
      forall i | 0 <= i < n
        ensures BsdSince(c, requests, i) <==> BsdSince(c, before, i) && !last.DisableBsd?
      {
        assert before[..i] == requests[..i];
        assert forall j | 0 <= j < n :: before[j] == requests[j];
      }
      assert BsdSince(c, requests, n) <==> last.EnableBsd? && GetsIn(Outcome(c, before), last.answers);
      assert forall j | 0 <= j < n :: before[j] == requests[j];
    }
  }

  /** And the debugger likewise, whatever the stack has asked for. */
  lemma {:induction false} DebuggerEnabledIff(c: Clients, requests: seq<Request>)
    ensures Outcome(c, requests).kdp <==>
            || (c.kdp && forall j | 0 <= j < |requests| :: !requests[j].DisableDebugger?)
            || exists i | 0 <= i < |requests| :: DebuggerSince(c, requests, i)
  {
    if requests != [] {
      var n := |requests| - 1;
      var before, last := requests[..n], requests[n];
      DebuggerEnabledIff(c, before);
      forall i | 0 <= i < n
        ensures DebuggerSince(c, requests, i) <==> DebuggerSince(c, before, i) && !last.DisableDebugger?
      {
        assert before[..i] == requests[..i];
        assert forall j | 0 <= j < n :: before[j] == requests[j];
      }
      assert DebuggerSince(c, requests, n) <==> last.EnableDebugger? && GetsIn(Outcome(c, before), last.answers);
      assert forall j | 0 <= j < n :: before[j] == requests[j];
    }
  }

  /** No step skips a level. */
  ghost predicate Stepwise(trail: seq<Level>) {
    forall i | 0 < i < |trail| :: Adjacent(trail[i - 1], trail[i])
  }

  predicate Adjacent(a: Level, b: Level) { a + 1 == b || b + 1 == a }

  class Activator {
    var currentLevel: Level
    var enabledByBSD: bool
    var enabledByKDP: bool

    var interruptEnabled: bool
    var queueRunning: bool
    var timerRunning: bool
    var providerOpen: bool

    // Every level there has been, and whether the last attempt at level 1 failed after the
    // provider had been opened.
    ghost var trail: seq<Level>
    ghost var stranded: bool

    ghost predicate Valid()
      reads this
    {
      && trail != [] && trail[|trail| - 1] == currentLevel && Stepwise(trail)
      && (interruptEnabled <==> currentLevel == 2) && (queueRunning <==> currentLevel == 2)
      && (timerRunning <==> 1 <= currentLevel)
      && (providerOpen <==> 1 <= currentLevel || stranded) && (stranded ==> currentLevel == 0)
    }

    /** The level the two clients call for. */
    function Wanted(): Level
      reads this
    {
      if enabledByBSD then 2 else if enabledByKDP then 1 else 0
    }

    constructor ()
      ensures Valid() && currentLevel == Wanted() == 0 && !stranded
    {
      currentLevel, enabledByBSD, enabledByKDP := 0, false, false;
      interruptEnabled, queueRunning, timerRunning, providerOpen := false, false, false, false;
      trail, stranded := [0], false;
    }

    /** `initAdapter` begins by disabling interrupts. */
    method InitAdapter()
      modifies `interruptEnabled
      ensures !interruptEnabled
    {
      interruptEnabled := false;
    }

    /** `enableAdapter`. A level 1 that fails at the medium leaves the provider open. */
    method EnableAdapter(level: Level, answers: Answers) returns (success: bool)
      requires Valid() && level == currentLevel + 1
      modifies `interruptEnabled, `queueRunning, `timerRunning, `providerOpen, `stranded
      ensures success <==> level == 2 || (answers.opens && answers.selects)
      ensures (interruptEnabled <==> success && level == 2) && (queueRunning <==> success && level == 2)
      ensures timerRunning <==> success || level == 2
      ensures providerOpen <==> success || stranded
      ensures stranded <==> level == 1 && !success && (answers.opens || old(stranded))
    {
      success := false;
      if level == 1 {
        if !answers.opens { return; }
        providerOpen := true;
        InitAdapter();
        stranded := !answers.selects;
        if !answers.selects { return; }
        timerRunning := true;
        success := true;
      } else if level == 2 {
        queueRunning := true;
        interruptEnabled := true;
        success := true;
      }
    }

    /** `disableAdapter`. */
    method DisableAdapter(level: Level) returns (success: bool)
      requires Valid() && level == currentLevel && 0 < level
      modifies `interruptEnabled, `queueRunning, `timerRunning, `providerOpen
      ensures success && !interruptEnabled && !queueRunning
      ensures (timerRunning <==> level == 2) && (providerOpen <==> level == 2)
    {
      success := false;
      if level == 1 {
        timerRunning := false;
        InitAdapter();
        providerOpen := false;
        success := true;
      } else if level == 2 {
        interruptEnabled := false;
        queueRunning := false;
        success := true;
      }
    }

    /** `setActivationLevel`. It fails only on the way from level 0 to level 1. */
    method SetActivationLevel(level: Level, answers: Answers) returns (success: bool)
      requires Valid()
      modifies `currentLevel, `interruptEnabled, `queueRunning, `timerRunning, `providerOpen, `trail, `stranded
      ensures Valid() && old(trail) <= trail
      ensures success <==> old(currentLevel) > 0 || level == 0 || (answers.opens && answers.selects)
      ensures currentLevel == if success then level else 0
      ensures stranded <==> if old(currentLevel) == 0 && 0 < level then !success && (answers.opens || old(stranded))
                            else old(stranded)
    {
      success := false;
      if currentLevel == level {
        return true;
      }
      while currentLevel > level
        invariant Valid() && old(trail) <= trail
        invariant currentLevel >= level || currentLevel == old(currentLevel)
        invariant old(currentLevel) > level ==> currentLevel >= level && (currentLevel == level ==> success)
        invariant stranded == old(stranded)
        decreases currentLevel
      {
        success := DisableAdapter(currentLevel);
        if !success { break; }
        currentLevel := currentLevel - 1;
        trail := trail + [currentLevel];
      }
      while currentLevel < level
        invariant Valid() && old(trail) <= trail && currentLevel <= level
        invariant old(currentLevel) >= level ==> currentLevel == level && success
        invariant old(currentLevel) < level ==> old(currentLevel) <= currentLevel
        invariant old(currentLevel) < currentLevel ==>
                    success && (old(currentLevel) > 0 || (answers.opens && answers.selects))
        invariant old(currentLevel) == currentLevel || level <= old(currentLevel) ==> stranded == old(stranded)
        decreases level - currentLevel
      {
        success := EnableAdapter(currentLevel + 1, answers);
        if !success { break; }
        currentLevel := currentLevel + 1;
        trail := trail + [currentLevel];
      }
    }

    ghost function Books(): Clients
      reads this
    {
      Clients(enabledByBSD, enabledByKDP, stranded)
    }

    /** The two pairs of `enable` and `disable`. */
    method Perform(r: Request)
      requires Valid() && currentLevel == Wanted()
      modifies this
      ensures Valid() && currentLevel == Wanted() && old(trail) <= trail
      ensures Books() == old(Books()).After(r)
    {
      var success;
      match r
      case EnableBsd(answers) =>
        if !enabledByBSD {
          success := SetActivationLevel(2, answers);
          enabledByBSD := success;
        }
      case DisableBsd =>
        enabledByBSD := false;
        success := SetActivationLevel(if enabledByKDP then 1 else 0, Answers(false, false));
      case EnableDebugger(answers) =>
        if enabledByKDP || enabledByBSD {
          enabledByKDP := true;
        } else {
          success := SetActivationLevel(1, answers);
          enabledByKDP := success;
        }
      case DisableDebugger =>
        enabledByKDP := false;
        if !enabledByBSD {
          success := SetActivationLevel(0, Answers(false, false));
        }
    }

    /** After any sequence of requests the clients enabled are those the answers let in, the level
        is the one they call for, the levels have changed one at a time, and interrupts are
        enabled exactly at level 2. */
    method Run(requests: seq<Request>)
      requires Valid() && currentLevel == Wanted()
      modifies this
      ensures Books() == Outcome(old(Books()), requests)
      ensures Valid() && currentLevel == Wanted() && old(trail) <= trail && Stepwise(trail)
      ensures interruptEnabled <==> enabledByBSD
    {
      for i := 0 to |requests|
        invariant Valid() && currentLevel == Wanted() && old(trail) <= trail
        invariant Books() == Outcome(old(Books()), requests[..i])
      {
        Perform(requests[i]);
        assert requests[..i + 1][..i] == requests[..i];
      }
      assert requests[..|requests|] == requests;
    }
  }
}
