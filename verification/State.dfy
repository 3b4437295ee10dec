/** The published application state and its one legal cycle. */
module State {
  datatype AppState = Stopped | Starting | Running | Stopping

  /** The transitions the source lists. */
  predicate Legal(from: AppState, to: AppState)
  {
    match (from, to)
    case (Stopped, Starting) => true
    case (Starting, Running) => true
    case (Running, Stopping) => true
    case (Stopping, Stopped) => true
    case _ => false
  }

  /** The state on position k of the walk Stopped, Starting, Running, Stopping, Stopped, ... */
  function OnWalk(k: nat): AppState
  {
    if k % 4 == 0 then Stopped else if k % 4 == 1 then Starting else if k % 4 == 2 then Running else Stopping
  }

  type Published = p: seq<AppState> | |p| > 0 witness [Stopped]

  function Last(p: Published): AppState { p[|p| - 1] }

  /** Everything published so far follows the walk. */
  predicate Walks(p: Published) { forall k | 0 <= k < |p| :: p[k] == OnWalk(k) }

  function Try(p: Published, to: AppState): Published { if Legal(Last(p), to) then p + [to] else p }

  /** From a walk, exactly the next position is accepted; so whatever is tried, the walk continues. */
  lemma {:induction false} TryWalks(p: Published, to: AppState)
    requires Walks(p)
    ensures Walks(Try(p, to))
    ensures Try(p, to) != p <==> to == OnWalk(|p|)
  {
    assert Last(p) == OnWalk(|p| - 1);
    assert |p| % 4 == ((|p| - 1) % 4 + 1) % 4;
  }

  class StateManager {
    var current: AppState
    /** All states ever sent to subscribers, oldest first. */
    var published: Published

    ghost predicate Valid()
      reads this
    {
      current == Last(published) && Walks(published)
    }

    constructor ()
      ensures Valid() && published == [Stopped]
    {
      current := Stopped;
      published := [Stopped];
    }

    method TryTransition(to: AppState) returns (ok: bool)
      requires Valid()
      modifies this
      ensures Valid() && published == Try(old(published), to)
      ensures ok <==> to == OnWalk(|old(published)|)
      ensures ok <==> published == old(published) + [to]
    {
      TryWalks(published, to);
      ok := Legal(current, to);
      if ok {
        current := to;
        published := published + [to];
      }
    }
  }
}
