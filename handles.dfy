/** The handle slices of the emitted cgo code (src/go/cgo.ts:320, 324-328):
    each handle interface keeps a slice of live objects; a function returning
    the interface appends the new object and hands out its index, and the
    interface's closer sets the slot to nil. The slice never shrinks, so a
    handle, once issued, is never reused. */
module Handles {
  import opened Diagnostics

  /** One operation on a handle slice. */
  datatype Op<T> = Append(obj: T) | Clear(handle: nat)

  /** The slice after one operation, or None where Go panics: closing an
      index outside the slice. */
  function Step<T>(slots: seq<Option<T>>, op: Op<T>): Option<seq<Option<T>>> {
    match op
    case Append(obj) => Some(slots + [Some(obj)])
    case Clear(h) => if h < |slots| then Some(slots[h := None]) else None
  }

  /** The handle a step hands out: the old length for a creation. */
  function Issued<T>(slots: seq<Option<T>>, op: Op<T>): Option<nat> {
    if op.Append? then Some(|slots|) else None
  }

  /** The emitted slice of one handle interface. */
  class HandleTable<T> {
    var slots: seq<Option<T>>

    constructor()
      ensures slots == []
    {
      slots := [];
    }

    /** `h_handles = append(h_handles, obj)` then `return int64(len(h_handles) - 1)`. */
    method Create(obj: T) returns (handle: nat)
      modifies this
      ensures Step(old(slots), Append(obj)) == Some(slots)
      ensures Issued(old(slots), Append(obj)) == Some(handle)
      ensures slots[handle] == Some(obj)
    {
      slots := slots + [Some(obj)];
      handle := |slots| - 1;
    }

    /** `h_handles[handle] = nil`. */
    method Close(handle: nat)
      requires handle < |slots|
      modifies this
      ensures Step(old(slots), Clear(handle)) == Some(slots)
      ensures |slots| == |old(slots)| && slots[handle] == None
    {
      slots := slots[handle := None];
    }

    /** `h_handles[handle]`: the object behind a handle, nil once closed. */
    function Get(handle: nat): (r: Option<T>)
      requires handle < |slots|
      reads this
      ensures r == slots[handle]
      ensures r.Some? ==> Some(r.value) in slots
    {
      slots[handle]
    }
  }

  /** A sequence of operations from `slots`: the final slice and the handles
      handed out, in order, or None once an operation panics. */
  function Run<T>(slots: seq<Option<T>>, ops: seq<Op<T>>): Option<(seq<Option<T>>, seq<nat>)>
    decreases |ops|
  {
    if |ops| == 0 then Some((slots, []))
    else
      match Step(slots, ops[0])
      case None => None
      case Some(next) =>
        match Run(next, ops[1..])
        case None => None
        case Some(res) =>
          var issued := if ops[0].Append? then [|slots|] else [];
          Some((res.0, issued + res.1))
  }

  /** The number of creations among `ops`. */
  function Creates<T>(ops: seq<Op<T>>): nat {
    if |ops| == 0 then 0 else (if ops[0].Append? then 1 else 0) + Creates(ops[1..])
  }

  /** The slice grows by one per creation and never shrinks; the handles
      handed out are fresh, in increasing order, each a valid index of the
      final slice. */
  lemma {:induction false} RunHandles<T>(slots: seq<Option<T>>, ops: seq<Op<T>>)
    requires Run(slots, ops).Some?
    ensures var res := Run(slots, ops).value;
      && |res.0| == |slots| + Creates(ops)
      && |res.1| == Creates(ops)
      && (forall k :: 0 <= k < |res.1| ==> |slots| <= res.1[k] < |res.0|)
      && (forall j, k :: 0 <= j < k < |res.1| ==> res.1[j] < res.1[k])
    decreases |ops|
  {
    if |ops| > 0 {
      var next := Step(slots, ops[0]).value;
      RunHandles(next, ops[1..]);
      var res := Run(slots, ops).value;
      var rest := Run(next, ops[1..]).value;
      if ops[0].Append? {
        assert res.1 == [|slots|] + rest.1;
        assert |next| == |slots| + 1;
      } else {
        assert res.1 == rest.1;
        assert |next| == |slots|;
      }
    }
  }

  /** A slot keeps its object until an operation closes exactly that slot. */
  lemma {:induction false} RunKeepsOpen<T>(slots: seq<Option<T>>, ops: seq<Op<T>>, h: nat)
    requires Run(slots, ops).Some? && h < |slots|
    requires forall k :: 0 <= k < |ops| ==> !(ops[k].Clear? && ops[k].handle == h)
    ensures h < |Run(slots, ops).value.0| && Run(slots, ops).value.0[h] == slots[h]
    decreases |ops|
  {
    if |ops| > 0 {
      var next := Step(slots, ops[0]).value;
      assert next[h] == slots[h] && |next| >= |slots|;
      assert forall k :: 0 <= k < |ops| - 1 ==> ops[1..][k] == ops[k + 1];
      RunKeepsOpen(next, ops[1..], h);
    }
  }
}
