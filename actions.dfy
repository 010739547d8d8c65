/** The actions a program step yields, and how the update pass splits them
    into futures for the scheduler and actions returned to the caller. */
module Actions {

  /** A unit of asynchronous work the program asks to run (iced `Action::Future`). */
  type FutureTask

  /** Any other action kind (clipboard, window, system, widget); opaque here. */
  type ImmediateAction

  datatype Action = Future(task: FutureTask) | Immediate(action: ImmediateAction)

  /** The non-future actions, in their original order. */
  function Returned(actions: seq<Action>): (r: seq<Action>)
    ensures |r| <= |actions|
    ensures forall i :: 0 <= i < |r| ==> r[i].Immediate? && r[i] in actions
  {
    if actions == [] then []
    else if actions[0].Future? then Returned(actions[1..])
    else [actions[0]] + Returned(actions[1..])
  }

  /** The tasks of the future actions, in their original order. */
  function Futures(actions: seq<Action>): (r: seq<FutureTask>)
    ensures |r| <= |actions|
    ensures forall i :: 0 <= i < |r| ==> Future(r[i]) in actions
  {
    if actions == [] then []
    else if actions[0].Future? then [actions[0].task] + Futures(actions[1..])
    else Futures(actions[1..])
  }

  /** Splitting distributes over concatenation: the relative order of the
      returned actions, and of the scheduled futures, is that of the input. */
  lemma {:induction false} SplitAppend(a: seq<Action>, b: seq<Action>)
    ensures Returned(a + b) == Returned(a) + Returned(b)
    ensures Futures(a + b) == Futures(a) + Futures(b)
  {
    if a == [] {
      assert a + b == b;
    } else {
      assert (a + b)[0] == a[0];
      assert (a + b)[1..] == a[1..] + b;
      SplitAppend(a[1..], b);
      if a[0].Future? {
        assert Futures(a) == [a[0].task] + Futures(a[1..]);
      } else {
        assert Returned(a) == [a[0]] + Returned(a[1..]);
      }
    }
  }

  /** No action is dropped or duplicated by the split. */
  lemma {:induction false} SplitCounts(actions: seq<Action>)
    ensures |Returned(actions)| + |Futures(actions)| == |actions|
  {
    if actions != [] {
      SplitCounts(actions[1..]);
    }
  }

  /** Every action goes exactly one way: the returned actions and the scheduled
      futures together are the step's actions, as a multiset. */
  lemma {:induction false} SplitIsPartition(actions: seq<Action>)
    ensures multiset(Returned(actions)) + multiset(FuturesAsActions(Futures(actions))) == multiset(actions)
  {
    if actions != [] {
      SplitIsPartition(actions[1..]);
      SplitStep(actions[0], actions[1..]);
      assert actions == [actions[0]] + actions[1..];
    }
  }

  /** One action in front goes exactly one way. */
  lemma SplitStep(x: Action, rest: seq<Action>)
    ensures multiset(Returned([x] + rest)) + multiset(FuturesAsActions(Futures([x] + rest)))
         == multiset{x} + (multiset(Returned(rest)) + multiset(FuturesAsActions(Futures(rest))))
  {
    assert ([x] + rest)[1..] == rest;
    if x.Future? {
      assert FuturesAsActions(Futures([x] + rest)) == [x] + FuturesAsActions(Futures(rest));
    } else {
      assert Returned([x] + rest) == [x] + Returned(rest);
    }
  }

  /** Re-wraps scheduled tasks as the actions they came from. */
  function FuturesAsActions(tasks: seq<FutureTask>): (r: seq<Action>)
    ensures |r| == |tasks|
    ensures forall i :: 0 <= i < |r| ==> r[i] == Future(tasks[i])
  {
    if tasks == [] then [] else [Future(tasks[0])] + FuturesAsActions(tasks[1..])
  }

  /** A step that yields no futures has all its actions returned unchanged. */
  lemma {:induction false} NoFuturesAllReturned(actions: seq<Action>)
    requires forall i :: 0 <= i < |actions| ==> actions[i].Immediate?
    ensures Returned(actions) == actions
    ensures Futures(actions) == []
  {
    if actions != [] {
      NoFuturesAllReturned(actions[1..]);
    }
  }

  /** The split performed by the update pass (`filter_map`): futures are handed
      on for scheduling, every other action is kept in order. */
  method Split(actions: seq<Action>) returns (kept: seq<Action>, futures: seq<FutureTask>)
    ensures kept == Returned(actions)
    ensures futures == Futures(actions)
  {
    kept, futures := [], [];
    for i := 0 to |actions|
      invariant kept == Returned(actions[..i])
      invariant futures == Futures(actions[..i])
    {
      assert actions[..i + 1] == actions[..i] + [actions[i]];
      SplitAppend(actions[..i], [actions[i]]);
      match actions[i]
      case Future(task) =>
        futures := futures + [task];
      case Immediate(_) =>
        kept := kept + [actions[i]];
    }
    assert actions[..|actions|] == actions;
  }
}
