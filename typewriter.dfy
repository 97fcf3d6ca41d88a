/**
 * The typewriter animation of the hero banner. The state is the index of the
 * role being typed, the text displayed so far and whether the animation is
 * deleting. A timer fires one tick at a time; each tick grows the text by one
 * character of the current role, pauses at the full role, shrinks the text by
 * one character, or, once the text is empty while deleting, moves on to the
 * next role (wrapping round). Both component files run the same logic over
 * different role lists.
 */
module Typewriter {
  import JsString

  /** Delay of a tick while growing, while deleting, and of the pause before deleting (ms). */
  const TypeSpeedMs: nat := 100
  const DeleteSpeedMs: nat := 50
  const PauseMs: nat := 2000

  const SrcRoles: seq<string> :=
    ["DevOps Engineer", "Cloud Architect", "Automation Enthusiast", "Kubernetes Administrator"]
  const RootRoles: seq<string> :=
    ["DevOps Engineer", "Cloud Architect", "Automation Expert", "Kubernetes Administrator"]

  datatype State = State(roleIndex: nat, text: string, deleting: bool)

  /**
   * What is left pending after a tick. When the tick changed the state the
   * component re-renders and its effect arms the next tick with the speed of
   * the new state; in the pause tick the state is unchanged, no new tick is
   * armed, and only the timeout that will switch to deleting is pending.
   */
  datatype Schedule = TickAfter(ms: nat) | StartDeletingAfter(ms: nat)

  datatype TickResult = TickResult(state: State, next: Schedule)

  /** Events that drive the animation: the tick timer and the pause timeout. */
  datatype Event = Tick | PauseElapsed

  /** The animation invariant: the index is in range and the text is a prefix of its role. */
  predicate Inv(roles: seq<string>, s: State)
  {
    s.roleIndex < |roles| && s.text <= roles[s.roleIndex]
  }

  /** The state on mount. */
  function Initial(): (s: State)
  {
    State(0, "", false)
  }

  /** The delay after which the effect arms a tick, chosen from the deleting flag. */
  function TickDelay(deleting: bool): (ms: nat)
  {
    if deleting then DeleteSpeedMs else TypeSpeedMs
  }

  /** One firing of the tick timer. */
  function Step(roles: seq<string>, s: State): (r: TickResult)
    requires s.roleIndex < |roles|
    ensures Inv(roles, s) ==> Inv(roles, r.state)
    ensures r.state.roleIndex ==
      if s.deleting && s.text == "" then (s.roleIndex + 1) % |roles| else s.roleIndex
    ensures r.state.deleting == (s.deleting && s.text != "")
    ensures r.state.text <= roles[s.roleIndex]
    ensures s.deleting && s.text == "" ==> r.state.text == ""
    ensures Inv(roles, s) && s.deleting && s.text != "" ==> r.state.text == s.text[..|s.text| - 1]
    ensures Inv(roles, s) && !s.deleting ==>
      |r.state.text| == if s.text == roles[s.roleIndex] then |s.text| else |s.text| + 1
    ensures r.next.StartDeletingAfter? <==> !s.deleting && s.text == roles[s.roleIndex]
    ensures r.next.StartDeletingAfter? ==> r.next.ms == PauseMs && r.state == s
    ensures r.next.TickAfter? ==>
      r.next.ms == (if r.state.deleting then DeleteSpeedMs else TypeSpeedMs)
    ensures Inv(roles, s) ==> (r.state == s <==> r.next.StartDeletingAfter?)
  {
    var full := roles[s.roleIndex];
    if s.deleting then
      var text := JsString.Substring(full, 0, |s.text| - 1);
      if s.text == "" then
        var st := State((s.roleIndex + 1) % |roles|, text, false);
        TickResult(st, TickAfter(TickDelay(st.deleting)))
      else
        var st := State(s.roleIndex, text, true);
        TickResult(st, TickAfter(TickDelay(st.deleting)))
    else
      var text := JsString.Substring(full, 0, |s.text| + 1);
      var st := State(s.roleIndex, text, false);
      if s.text == full then TickResult(st, StartDeletingAfter(PauseMs))
      else TickResult(st, TickAfter(TickDelay(st.deleting)))
  }

  /** The state after one event. */
  function Apply(roles: seq<string>, s: State, e: Event): (r: State)
    requires s.roleIndex < |roles|
    ensures r.roleIndex < |roles|
  {
    match e
    case Tick => Step(roles, s).state
    case PauseElapsed => s.(deleting := true)
  }

  /** The state after a sequence of events. */
  function Run(roles: seq<string>, s: State, events: seq<Event>): (r: State)
    requires s.roleIndex < |roles|
    ensures r.roleIndex < |roles|
    decreases |events|
  {
    if events == [] then s else Run(roles, Apply(roles, s, events[0]), events[1..])
  }

  function Ticks(n: nat): (es: seq<Event>)
    ensures |es| == n && forall k :: 0 <= k < n ==> es[k] == Tick
  {
    seq(n, _ => Tick)
  }

  /** Every event, in any order, keeps the animation invariant. */
  lemma {:induction false} RunKeepsInv(roles: seq<string>, s: State, events: seq<Event>)
    requires Inv(roles, s)
    ensures Inv(roles, Run(roles, s, events))
    decreases |events|
  {
    if events != [] {
      RunKeepsInv(roles, Apply(roles, s, events[0]), events[1..]);
    }
  }

  lemma {:induction false} RunAppend(roles: seq<string>, s: State, a: seq<Event>, b: seq<Event>)
    requires s.roleIndex < |roles|
    ensures Run(roles, s, a + b) == Run(roles, Run(roles, s, a), b)
    decreases |a|
  {
    if a != [] {
      assert (a + b)[0] == a[0] && (a + b)[1..] == a[1..] + b;
      RunAppend(roles, Apply(roles, s, a[0]), a[1..], b);
    } else {
      assert a + b == b;
    }
  }

  /** While growing, n ticks type the next n characters of the role. */
  lemma {:induction false} GrowTicks(roles: seq<string>, i: nat, k: nat, n: nat)
    requires i < |roles| && k + n <= |roles[i]|
    ensures Run(roles, State(i, roles[i][..k], false), Ticks(n)) == State(i, roles[i][..k + n], false)
    decreases n
  {
    if n > 0 {
      var s := State(i, roles[i][..k], false);
      assert s.text != roles[i];
      assert Apply(roles, s, Tick) == State(i, roles[i][..k + 1], false);
      assert Ticks(n)[1..] == Ticks(n - 1);
      GrowTicks(roles, i, k + 1, n - 1);
    }
  }

  /** While deleting, n ticks erase the last n characters. */
  lemma {:induction false} ShrinkTicks(roles: seq<string>, i: nat, k: nat, n: nat)
    requires i < |roles| && n <= k <= |roles[i]|
    ensures Run(roles, State(i, roles[i][..k], true), Ticks(n)) == State(i, roles[i][..k - n], true)
    decreases n
  {
    if n > 0 {
      var s := State(i, roles[i][..k], true);
      assert s.text != "";
      assert Apply(roles, s, Tick) == State(i, roles[i][..k - 1], true);
      assert Ticks(n)[1..] == Ticks(n - 1);
      ShrinkTicks(roles, i, k - 1, n - 1);
    }
  }

  /**
   * One full cycle: starting empty on role i, |role| ticks type it, one tick
   * pauses, the pause timeout switches to deleting, |role| ticks erase it and
   * one more tick moves on to the next role, wrapping to 0 after the last.
   */
  lemma FullCycle(roles: seq<string>, i: nat)
    requires i < |roles|
    ensures var n := |roles[i]|;
      Run(roles, State(i, "", false), Ticks(n) + [Tick, PauseElapsed] + Ticks(n) + [Tick])
        == State((i + 1) % |roles|, "", false)
  {
    var n := |roles[i]|;
    var s0 := State(i, "", false);
    assert roles[i][..0] == "" && roles[i][..n] == roles[i];
    GrowTicks(roles, i, 0, n);
    var s1 := State(i, roles[i], false);
    assert Run(roles, s1, [Tick, PauseElapsed]) == State(i, roles[i], true);
    ShrinkTicks(roles, i, n, n);
    var s2 := State(i, "", true);
    assert Run(roles, s2, [Tick]) == State((i + 1) % |roles|, "", false);
    RunAppend(roles, s0, Ticks(n), [Tick, PauseElapsed]);
    RunAppend(roles, s0, Ticks(n) + [Tick, PauseElapsed], Ticks(n));
    RunAppend(roles, s0, Ticks(n) + [Tick, PauseElapsed] + Ticks(n), [Tick]);
  }

  /** Both role lists are non-empty lists of non-empty roles. */
  lemma RoleListsWellFormed()
    ensures |SrcRoles| == 4 && |RootRoles| == 4
    ensures forall k :: 0 <= k < 4 ==> SrcRoles[k] != "" && RootRoles[k] != ""
  {
  }

  /**
   * The animation state of one mounted component. Its fields are the three
   * pieces of component state the tick handler updates.
   */
  class Animator {
    const roles: seq<string>
    var roleIndex: nat
    var text: string
    var deleting: bool

    function Current(): State
      reads this
    {
      State(roleIndex, text, deleting)
    }

    predicate Valid()
      reads this
    {
      Inv(roles, Current())
    }

    constructor (roles: seq<string>)
      requires |roles| > 0
      ensures this.roles == roles && Current() == Initial() && Valid()
    {
      this.roles := roles;
      roleIndex, text, deleting := 0, "", false;
    }

    /** The tick handler: reads the state it was armed with and updates the fields. */
    method HandleTyping() returns (next: Schedule)
      requires Valid()
      modifies this
      ensures Valid()
      ensures Current() == Step(roles, old(Current())).state
      ensures next == Step(roles, old(Current())).next
    {
      var full := roles[roleIndex];
      var shown := text;
      if deleting {
        text := JsString.Substring(full, 0, |shown| - 1);
        if shown == "" {
          deleting := false;
          roleIndex := (roleIndex + 1) % |roles|;
        }
        next := TickAfter(TickDelay(deleting));
      } else {
        text := JsString.Substring(full, 0, |shown| + 1);
        if shown == full {
          next := StartDeletingAfter(PauseMs);
          return;
        }
        next := TickAfter(TickDelay(deleting));
      }
    }

    /**
     * The pause timeout fires: deleting starts, and the effect arms a deleting
     * tick. It is only ever armed by a growing tick.
     */
    method StartDeleting() returns (next: Schedule)
      requires Valid() && !deleting
      modifies this
      ensures Valid()
      ensures Current() == old(Current()).(deleting := true)
      ensures next == TickAfter(DeleteSpeedMs)
    {
      deleting := true;
      next := TickAfter(TickDelay(deleting));
    }
  }
}
