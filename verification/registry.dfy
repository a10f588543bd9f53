/**
 The two ordered listener registries of the connection client and the guarded
 fan-out that notifies them.

 A listener is an opaque identity: `indexOf` compares callbacks by reference,
 and a callback's only observable behaviour here is whether it throws.
 */
module Registry {

  /** A registered callback, compared by identity. */
  type ListenerId = nat

  /** One listener invocation of a fan-out: who was called, with what, and
      whether the call threw (and was caught and logged). */
  datatype Call<E> = Call(listener: ListenerId, event: E, threw: bool)

  /** `push`: the registry grows by `l` at the end and is otherwise as it was. */
  function Add(ls: seq<ListenerId>, l: ListenerId): (r: seq<ListenerId>)
    ensures |r| == |ls| + 1 && r[..|ls|] == ls && r[|ls|] == l
    ensures multiset(r) == multiset(ls) + multiset{l}
  {
    ls + [l]
  }

  /** `indexOf`: the first position holding `l`, or -1 when there is none. */
  function IndexOf(ls: seq<ListenerId>, l: ListenerId): (i: int)
    ensures -1 <= i < |ls|
    ensures i == -1 <==> l !in ls
    ensures 0 <= i ==> ls[i] == l && l !in ls[..i]
  {
    if ls == [] then -1
    else if ls[0] == l then 0
    else
      var j := IndexOf(ls[1..], l);
      if j == -1 then -1
      else
        assert ls[..j + 1] == [ls[0]] + ls[1..][..j];
        j + 1
  }

  /** `indexOf` then `splice(index, 1)`: drops the first entry equal to `l`,
      keeps every other entry in its order, and does nothing when `l` is not
      registered. */
  function Remove(ls: seq<ListenerId>, l: ListenerId): (r: seq<ListenerId>)
    ensures l !in ls ==> r == ls
    ensures l in ls ==>
      exists i :: 0 <= i < |ls| && ls[i] == l && l !in ls[..i] && r == ls[..i] + ls[i + 1..]
    ensures multiset(r) == multiset(ls) - multiset{l}
  {
    var i := IndexOf(ls, l);
    if i != -1 then
      assert ls == ls[..i] + [ls[i]] + ls[i + 1..];
      ls[..i] + ls[i + 1..]
    else ls
  }

  /** The fan-out every notification should make: each registered listener
      once, in registration order, whatever the others do. */
  function Dispatch<E>(ls: seq<ListenerId>, e: E, throws: set<ListenerId>): (calls: seq<Call<E>>)
  {
    seq(|ls|, i requires 0 <= i < |ls| => Call(ls[i], e, ls[i] in throws))
  }

  /** How one listener call ends: it returns, or it throws. */
  datatype Invocation = Completed | Threw

  /** Calling listener `l`; the listeners in `throws` throw. */
  function Invoke(l: ListenerId, throws: set<ListenerId>): Invocation {
    if l in throws then Threw else Completed
  }

  /** `forEach` over the registry with a `try`/`catch` around each call. A
      call that throws is caught and logged, and the loop goes on to the next
      listener, so every listener is called once, in registration order, and
      receives the event once per registration. */
  method Notify<E>(ls: seq<ListenerId>, e: E, throws: set<ListenerId>) returns (calls: seq<Call<E>>)
    ensures |calls| == |ls|
    ensures forall i :: 0 <= i < |calls| ==> calls[i].listener == ls[i] && calls[i].event == e
    ensures forall i :: 0 <= i < |calls| ==> (calls[i].threw <==> ls[i] in throws)
    ensures forall l :: SeenBy(calls, l) == Repeat(e, multiset(ls)[l])
  {
    calls := [];
    var i := 0;
    while i < |ls|
      invariant 0 <= i <= |ls|
      invariant |calls| == i
      invariant forall k :: 0 <= k < i ==> calls[k] == Call(ls[k], e, ls[k] in throws)
    {
      match Invoke(ls[i], throws) {
        case Completed =>
          calls := calls + [Call(ls[i], e, false)];
        case Threw =>
          // caught: logged, and the next listener is still called
          calls := calls + [Call(ls[i], e, true)];
      }
      i := i + 1;
    }
    assert calls == Dispatch(ls, e, throws);
    forall l
      ensures SeenBy(calls, l) == Repeat(e, multiset(ls)[l])
    {
      SeenByDispatch(ls, e, throws, l);
    }
  }

  /** The events listener `l` receives, in order, from a trace of calls. */
  function SeenBy<E>(calls: seq<Call<E>>, l: ListenerId): seq<E>
  {
    if calls == [] then []
    else (if calls[0].listener == l then [calls[0].event] else []) + SeenBy(calls[1..], l)
  }

  /** `n` copies of `e`. */
  function Repeat<E>(e: E, n: nat): (r: seq<E>)
    ensures |r| == n
  {
    if n == 0 then [] else [e] + Repeat(e, n - 1)
  }

  lemma {:induction false} SeenByAppend<E>(a: seq<Call<E>>, b: seq<Call<E>>, l: ListenerId)
    ensures SeenBy(a + b, l) == SeenBy(a, l) + SeenBy(b, l)
  {
    if a == [] {
      assert a + b == b;
    } else {
      var ab := a + b;
      assert ab[0] == a[0];
      assert ab[1..] == a[1..] + b;
      SeenByAppend(a[1..], b, l);
      var head := if a[0].listener == l then [a[0].event] else [];
      assert SeenBy(ab, l) == head + SeenBy(ab[1..], l);
      assert SeenBy(a, l) == head + SeenBy(a[1..], l);
    }
  }

  /** In one fan-out a listener receives the event once per registration,
      and nothing else, whichever listeners throw. */
  lemma {:induction false} SeenByDispatch<E>(ls: seq<ListenerId>, e: E, throws: set<ListenerId>, l: ListenerId)
    ensures SeenBy(Dispatch(ls, e, throws), l) == Repeat(e, multiset(ls)[l])
  {
    if ls == [] {
    } else {
      var d := Dispatch(ls, e, throws);
      assert d[1..] == Dispatch(ls[1..], e, throws);
      SeenByDispatch(ls[1..], e, throws, l);
      assert ls == [ls[0]] + ls[1..];
      assert multiset(ls) == multiset{ls[0]} + multiset(ls[1..]);
      if ls[0] == l {
        assert multiset(ls)[l] == multiset(ls[1..])[l] + 1;
      } else {
        assert multiset(ls)[l] == multiset(ls[1..])[l];
      }
    }
  }

  /** Removing a listener registered once leaves it out of every later fan-out. */
  lemma RemovedListenerIsNotCalled<E>(ls: seq<ListenerId>, l: ListenerId, e: E, throws: set<ListenerId>)
    requires multiset(ls)[l] == 1
    ensures SeenBy(Dispatch(Remove(ls, l), e, throws), l) == []
  {
    SeenByDispatch(Remove(ls, l), e, throws, l);
  }

  /** Removing a listener after adding it to a registry that did not hold it
      gives the registry back unchanged. */
  lemma RemoveUndoesAdd(ls: seq<ListenerId>, l: ListenerId)
    requires l !in ls
    ensures Remove(Add(ls, l), l) == ls
  {
    var r := Add(ls, l);
    assert r[..|ls|] == ls;
    assert IndexOf(r, l) == |ls|;
  }
}
