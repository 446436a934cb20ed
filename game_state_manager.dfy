/**
 * The game's modes (menu, play) and the manager that stacks them: only the
 * state on top is live; the ones below are suspended, not disposed.
 *
 * A state is an identity with a disposed flag. Each state records the time
 * steps and the render calls it was handed, which is what delegation means
 * here. Of the concrete hooks, the menu's update is modelled (it handles
 * input, and a touch starts the game); what a play state does in its own
 * hooks is outside this model. The input poll "was the screen touched this
 * frame" is a parameter `justTouched`.
 */
module States {

  datatype Kind = Menu | Play

  class State {
    const kind: Kind
    var disposed: bool
    /** The `dt` of every update this state received, oldest first. */
    var updates: seq<real>
    /** How many times this state was rendered. */
    var renders: nat

    constructor (kind: Kind)
      ensures this.kind == kind && !disposed && updates == [] && renders == 0
    {
      this.kind := kind;
      disposed := false;
      updates := [];
      renders := 0;
    }

    /** Releases the state's resources. */
    method Dispose()
      modifies this
      ensures disposed
      ensures updates == old(updates) && renders == old(renders)
    {
      disposed := true;
    }

    /** The state's own per-frame update hook, as far as the state itself goes: it receives `dt`. */
    method Update(dt: real)
      modifies this
      ensures updates == old(updates) + [dt]
      ensures disposed == old(disposed) && renders == old(renders)
    {
      updates := updates + [dt];
    }

    /** The state's own drawing hook, reduced to a count. */
    method Render()
      modifies this
      ensures renders == old(renders) + 1
      ensures disposed == old(disposed) && updates == old(updates)
    {
      renders := renders + 1;
    }
  }

  class GameStateManager {
    /** The stack, bottom first: the top is the last element. */
    var states: seq<State>

    constructor ()
      ensures states == []
    {
      states := [];
    }

    /** The live state (`peek`): the one pushed last. */
    function Top(): (t: State)
      reads this
      requires states != []
      ensures t in states && t == states[|states| - 1]
    {
      states[|states| - 1]
    }

    /** Puts `s` on top; the previous top is suspended, nothing is disposed. */
    method Push(s: State)
      modifies this
      ensures states == old(states) + [s]
      ensures |states| == |old(states)| + 1 && Top() == s
    {
      states := states + [s];
    }

    /** Removes the top state and disposes it; the states below stay as they were. */
    method Pop()
      requires states != []
      modifies this, Top()
      ensures states == old(states)[..|old(states)| - 1]
      ensures old(Top()).disposed
      ensures old(Top()).updates == old(Top().updates) && old(Top()).renders == old(Top().renders)
      ensures forall s :: s in old(states) && s != old(Top()) ==> s.disposed == old(s.disposed)
    {
      var top := states[|states| - 1];
      states := states[..|states| - 1];
      top.Dispose();
    }

    /**
     * Disposes the top state and puts `s` in its place; the depth stays the
     * same. The disposed flag of `s` is left as it was unless `s` was that
     * top state, which is then disposed and pushed back.
     */
    method Set(s: State)
      requires states != []
      modifies this, Top()
      ensures states == old(states)[..|old(states)| - 1] + [s]
      ensures |states| == |old(states)| && Top() == s
      ensures old(Top()).disposed
      ensures old(Top()).updates == old(Top().updates) && old(Top()).renders == old(Top().renders)
      ensures s != old(Top()) ==> s.disposed == old(s.disposed)
      ensures forall t :: t in old(states) && t != old(Top()) ==> t.disposed == old(t.disposed)
    {
      var top := states[|states| - 1];
      states := states[..|states| - 1];
      top.Dispose();
      states := states + [s];
    }

    /**
     * Hands `dt` to the top state only. A menu on top then handles input:
     * on a touch it replaces itself by a new play state, so in that case
     * the stack changes during the update.
     */
    method Update(dt: real, justTouched: bool)
      requires states != []
      modifies this, Top()
      ensures old(Top()).updates == old(Top().updates) + [dt]
      ensures old(Top()).renders == old(Top().renders)
      ensures old(Top().kind) == Menu && justTouched ==>
        |states| == |old(states)| && states[..|states| - 1] == old(states)[..|old(states)| - 1] &&
        fresh(Top()) && Top().kind == Play && !Top().disposed && Top().updates == [] && Top().renders == 0 &&
        old(Top()).disposed
      ensures !(old(Top().kind) == Menu && justTouched) ==>
        states == old(states) && Top().disposed == old(Top().disposed)
      ensures forall s :: s in old(states) && s != old(Top()) ==>
        s.updates == old(s.updates) && s.disposed == old(s.disposed)
    {
      var top := states[|states| - 1];
      if top.kind == Menu {
        var _ := MenuUpdate(this, dt, justTouched);
      } else {
        top.Update(dt);
      }
    }

    /** Renders the top state only. */
    method Render()
      requires states != []
      modifies Top()
      ensures Top().renders == old(Top().renders) + 1
      ensures Top().disposed == old(Top().disposed) && Top().updates == old(Top().updates)
      ensures forall s :: s in states && s != Top() ==> s.renders == old(s.renders)
    {
      states[|states| - 1].Render();
    }
  }

  /**
   * Pushing a state and popping it again restores the stack and disposes
   * only the pushed state.
   */
  method PushThenPop(gsm: GameStateManager, s: State)
    modifies gsm, s
    ensures gsm.states == old(gsm.states)
    ensures s.disposed && s.updates == old(s.updates) && s.renders == old(s.renders)
    ensures forall t :: t in gsm.states && t != s ==> t.disposed == old(t.disposed)
  {
    gsm.Push(s);
    gsm.Pop();
  }

  /**
   * The menu's input handling: a touch in this frame replaces the menu on
   * top of the stack by a new play state; without a touch nothing changes.
   */
  method MenuHandleInput(gsm: GameStateManager, justTouched: bool) returns (play: State?)
    requires gsm.states != [] && gsm.Top().kind == Menu
    modifies gsm, gsm.Top()
    ensures justTouched ==> play != null && fresh(play) && play.kind == Play && !play.disposed
    ensures justTouched ==> play.updates == [] && play.renders == 0
    ensures justTouched ==> gsm.states == old(gsm.states)[..|old(gsm.states)| - 1] + [play]
    ensures justTouched ==> old(gsm.Top()).disposed
    ensures old(gsm.Top()).updates == old(gsm.Top().updates) && old(gsm.Top()).renders == old(gsm.Top().renders)
    ensures !justTouched ==> play == null && gsm.states == old(gsm.states)
    ensures !justTouched ==> old(gsm.Top()).disposed == old(gsm.Top().disposed)
  {
    play := null;
    if justTouched {
      play := new State(Play);
      gsm.Set(play);
    }
  }

  /**
   * The menu's update hook: the menu receives `dt` and then handles input,
   * so a touch disposes the menu and leaves a new play state on top.
   */
  method MenuUpdate(gsm: GameStateManager, dt: real, justTouched: bool) returns (play: State?)
    requires gsm.states != [] && gsm.Top().kind == Menu
    modifies gsm, gsm.Top()
    ensures old(gsm.Top()).updates == old(gsm.Top().updates) + [dt]
    ensures old(gsm.Top()).renders == old(gsm.Top().renders)
    ensures justTouched ==> play != null && fresh(play) && play.kind == Play && !play.disposed
    ensures justTouched ==> play.updates == [] && play.renders == 0
    ensures justTouched ==> gsm.states == old(gsm.states)[..|old(gsm.states)| - 1] + [play]
    ensures justTouched ==> old(gsm.Top()).disposed
    ensures !justTouched ==> play == null && gsm.states == old(gsm.states)
    ensures !justTouched ==> old(gsm.Top()).disposed == old(gsm.Top().disposed)
  {
    gsm.Top().Update(dt);
    play := MenuHandleInput(gsm, justTouched);
  }

  /**
   * Start of a session as the application runs it: the menu is pushed on
   * a new manager; in the first frame the screen is touched, so the menu's
   * update disposes it and installs a play state, which that frame's render
   * reaches; the second frame's update and render reach the play state.
   */
  method StartGame(dt1: real, dt2: real, touch2: bool) returns (gsm: GameStateManager, menu: State, play: State)
    ensures menu.kind == Menu && menu.disposed && menu.updates == [dt1] && menu.renders == 0
    ensures gsm.states == [play] && play.kind == Play && !play.disposed
    ensures play.updates == [dt2] && play.renders == 2
  {
    gsm := new GameStateManager();
    menu := new State(Menu);
    gsm.Push(menu);
    gsm.Update(dt1, true);
    gsm.Render();
    play := gsm.Top();
    assert play.updates == [] && play.renders == 1;
    gsm.Update(dt2, touch2);
    gsm.Render();
  }
}
