/** The signature classifier (server.go, checkOutParams, checkResultParam,
    initInParams and isHttpHeaderSignature). Go types are described by a
    small datatype instead of reflection; whether a type implements the
    payload.Response interface is a probe handed in by the caller. */
module Signature {
  import opened Common
  import opened GoStrings
  import opened Naming

  /** What the classifier can observe of a Go type: its kind, and for
      structs and maps their name (and package path). */
  datatype GoType =
    | Ptr(elem: GoType)
    | Struct(name: string)
    | Map(name: string, pkgPath: string)
    | Interface
    | Other

  /** reflect.Type.Implements(respInterface). */
  type ResponseProbe = GoType -> bool

  /** A method as reflect.Method describes it. `ins` includes the receiver
      at index 0, as reflect.Method.Type does. */
  datatype MethodSig = MethodSig(name: string, ins: seq<GoType>, outs: seq<GoType>)

  /** At most this many inputs, counting the receiver. */
  const MaxInputs: nat := 4
  const QuerySuffix: string := "Query"
  const HttpHeaderType: GoType := Map("Header", "net/http")

  function IsHttpHeaderSignature(t: GoType): (b: bool)
    ensures b <==> t == HttpHeaderType
  {
    t.Map? && t.name == "Header" && t.pkgPath == "net/http"
  }

  /** One level of pointer is looked through. */
  function Unwrap(t: GoType): GoType
  {
    if t.Ptr? then t.elem else t
  }

  function CheckResultParam(t: GoType): (ok: bool)
    ensures ok <==> t.Struct? || (t.Ptr? && t.elem.Struct?)
  {
    Unwrap(t).Struct?
  }

  datatype OutCheck = OutCheck(numParams: nat, ok: bool)

  /** The last result must be an interface or implement Response; with two
      results the first must be a struct or a pointer to one. A rejected
      method gets Go's zero results (0, false). */
  function CheckOutParams(outs: seq<GoType>, implementsResponse: ResponseProbe): (r: OutCheck)
    ensures r.ok <==>
              (|outs| == 1 || |outs| == 2) &&
              (outs[|outs| - 1].Interface? || implementsResponse(outs[|outs| - 1])) &&
              (|outs| == 2 ==> CheckResultParam(outs[0]))
    ensures r.ok ==> r.numParams == |outs|
    ensures !r.ok ==> r.numParams == 0
  {
    var outCount := |outs|;
    if outCount < 1 || outCount > 2 then OutCheck(0, false)
    else
      var item := outs[outCount - 1];
      if !item.Interface? && !implementsResponse(item) then OutCheck(0, false)
      else if outCount == 2 then
        if !CheckResultParam(outs[0]) then OutCheck(0, false) else OutCheck(2, true)
      else OutCheck(1, true)
  }

  datatype SlotKind = HeaderSlot | QuerySlot | BodySlot

  /** A decoded parameter: its position in the method's inputs, whether it
      is declared as a pointer (QueryKind/BodyKind == Ptr) and the record
      type a fresh instance is made of. */
  datatype Param = Param(index: nat, byPointer: bool, record: GoType)

  /** HasHeader/HeaderIndex, HasQuery/QueryIndex/QueryKind and
      HasBody/BodyIndex/BodyKind of actionInOutParams. */
  datatype Slots = Slots(header: Option<nat>, query: Option<Param>, body: Option<Param>)

  const NoSlots: Slots := Slots(None, None, None)

  function SlotIndex(s: Slots, k: SlotKind): Option<nat>
  {
    match k
    case HeaderSlot => s.header
    case QuerySlot => if s.query.Some? then Some(s.query.value.index) else None
    case BodySlot => if s.body.Some? then Some(s.body.value.index) else None
  }

  /** The number of slots present. */
  function PresentSlots(s: Slots): nat
  {
    (if s.header.Some? then 1 else 0) + (if s.query.Some? then 1 else 0) + (if s.body.Some? then 1 else 0)
  }

  predicate AcceptableParam(t: GoType)
  {
    Unwrap(t).Struct? || IsHttpHeaderSignature(Unwrap(t))
  }

  function KindOf(t: GoType): SlotKind
  {
    var u := Unwrap(t);
    if IsHttpHeaderSignature(u) then HeaderSlot
    else if u.Struct? && HasSuffix(u.name, QuerySuffix) then QuerySlot
    else BodySlot
  }

  /** One turn of the loop of initInParams for an accepted parameter. */
  function Assign(s: Slots, p: nat, t: GoType): Slots
  {
    match KindOf(t)
    case HeaderSlot => s.(header := Some(p))
    case QuerySlot => s.(query := Some(Param(p, t.Ptr?, Unwrap(t))))
    case BodySlot => s.(body := Some(Param(p, t.Ptr?, Unwrap(t))))
  }

  /** The loop of initInParams from position p on, with the slots filled
      so far; None is the nil it returns for a rejected parameter. */
  function SlotsFrom(ins: seq<GoType>, p: nat, acc: Slots): Option<Slots>
    decreases |ins| - p
  {
    if p >= |ins| then Some(acc)
    else if !AcceptableParam(ins[p]) then None
    else SlotsFrom(ins, p + 1, Assign(acc, p, ins[p]))
  }

  /** What initInParams computes. */
  function InParamSlots(ins: seq<GoType>): Option<Slots>
  {
    if |ins| > MaxInputs then None else SlotsFrom(ins, 1, NoSlots)
  }

  method InitInParams(ins: seq<GoType>) returns (r: Option<Slots>)
    ensures r == InParamSlots(ins)
  {
    if |ins| > MaxInputs {
      return None;
    }
    var inParam := NoSlots;
    var p := 1;
    while p < |ins|
      invariant 1 <= p
      invariant SlotsFrom(ins, p, inParam) == SlotsFrom(ins, 1, NoSlots)
    {
      var param := ins[p];
      var t := Unwrap(param);
      var isHeader := IsHttpHeaderSignature(t);
      if !t.Struct? && !isHeader {
        return None;
      }
      if isHeader {
        inParam := inParam.(header := Some(p));
      } else if HasSuffix(t.name, QuerySuffix) {
        inParam := inParam.(query := Some(Param(p, param.Ptr?, t)));
      } else {
        inParam := inParam.(body := Some(Param(p, param.Ptr?, t)));
      }
      p := p + 1;
    }
    r := Some(inParam);
  }

  // ----- What the slots mean, stated without the loop -----

  /** Some input at position 1 <= i < n has slot kind k. */
  predicate SomeOfKind(ins: seq<GoType>, n: nat, k: SlotKind)
  {
    exists i :: 1 <= i < n && i < |ins| && KindOf(ins[i]) == k
  }

  /** i is the last position before n whose input has slot kind k. */
  predicate LastOfKind(ins: seq<GoType>, n: nat, i: nat, k: SlotKind)
  {
    1 <= i < n <= |ins| && KindOf(ins[i]) == k &&
    forall j :: i < j < n ==> KindOf(ins[j]) != k
  }

  /** A decoded parameter describes the input it points at. */
  predicate ParamMatches(ins: seq<GoType>, prm: Param)
  {
    prm.index < |ins| && prm.byPointer == ins[prm.index].Ptr? && prm.record == Unwrap(ins[prm.index])
  }

  /** The slots record exactly the last input of each kind before n. */
  predicate Tracks(ins: seq<GoType>, n: nat, s: Slots)
  {
    n <= |ins| &&
    (forall k :: SlotIndex(s, k).Some? <==> SomeOfKind(ins, n, k)) &&
    (forall k :: SlotIndex(s, k).Some? ==> LastOfKind(ins, n, SlotIndex(s, k).value, k)) &&
    (s.query.Some? ==> ParamMatches(ins, s.query.value)) &&
    (s.body.Some? ==> ParamMatches(ins, s.body.value))
  }

  lemma AssignTracks(ins: seq<GoType>, p: nat, acc: Slots)
    requires 1 <= p < |ins|
    requires Tracks(ins, p, acc)
    ensures Tracks(ins, p + 1, Assign(acc, p, ins[p]))
  {
    var s := Assign(acc, p, ins[p]);
    forall k
      ensures SlotIndex(s, k).Some? <==> SomeOfKind(ins, p + 1, k)
      ensures SlotIndex(s, k).Some? ==> LastOfKind(ins, p + 1, SlotIndex(s, k).value, k)
    {
      if k == KindOf(ins[p]) {
        assert SlotIndex(s, k) == Some(p);
      } else {
        assert SlotIndex(s, k) == SlotIndex(acc, k);
        if SomeOfKind(ins, p + 1, k) {
          var i :| 1 <= i < p + 1 && i < |ins| && KindOf(ins[i]) == k;
          assert i < p;
        }
      }
    }
  }

  lemma {:induction false} SlotsFromTracks(ins: seq<GoType>, p: nat, acc: Slots)
    requires 1 <= p <= |ins|
    requires Tracks(ins, p, acc)
    ensures SlotsFrom(ins, p, acc).Some? <==> forall j :: p <= j < |ins| ==> AcceptableParam(ins[j])
    ensures SlotsFrom(ins, p, acc).Some? ==> Tracks(ins, |ins|, SlotsFrom(ins, p, acc).value)
    decreases |ins| - p
  {
    if p < |ins| {
      if AcceptableParam(ins[p]) {
        AssignTracks(ins, p, acc);
        SlotsFromTracks(ins, p + 1, Assign(acc, p, ins[p]));
      }
    }
  }

  /** initInParams accepts exactly the methods with at most four inputs,
      counting the receiver, whose every input after the receiver is,
      after one pointer unwrap, a struct or net/http.Header; and then
      each slot is filled by the LAST input of its kind, so a later
      parameter of a slot overwrites an earlier one. */
  lemma InParamSlotsSpec(ins: seq<GoType>)
    ensures InParamSlots(ins).Some? <==>
              |ins| <= MaxInputs && forall p :: 1 <= p < |ins| ==> AcceptableParam(ins[p])
    ensures InParamSlots(ins).Some? ==> Tracks(ins, |ins|, InParamSlots(ins).value)
  {
    if |ins| == 0 {
      assert forall k :: SlotIndex(NoSlots, k) == None;
    } else if |ins| <= MaxInputs {
      assert forall k :: SlotIndex(NoSlots, k) == None;
      assert Tracks(ins, 1, NoSlots);
      SlotsFromTracks(ins, 1, NoSlots);
    }
  }

  /** A struct whose name ends in "Query" always lands in the Query slot,
      never in the Body slot, wherever it stands among the parameters. */
  lemma QueryStructIsQuerySlot(ins: seq<GoType>, i: nat)
    requires InParamSlots(ins).Some?
    requires 1 <= i < |ins| && Unwrap(ins[i]).Struct? && HasSuffix(Unwrap(ins[i]).name, QuerySuffix)
    ensures InParamSlots(ins).value.query.Some?
    ensures InParamSlots(ins).value.query.value.index >= i
    ensures InParamSlots(ins).value.body.Some? ==> InParamSlots(ins).value.body.value.index != i
  {
    InParamSlotsSpec(ins);
    var s := InParamSlots(ins).value;
    assert KindOf(ins[i]) == QuerySlot;
    assert SomeOfKind(ins, |ins|, QuerySlot);
    assert SlotIndex(s, QuerySlot).Some?;
    if s.body.Some? {
      assert SlotIndex(s, BodySlot) == Some(s.body.value.index);
    }
  }

  // ----- The stricter classifier of the signature list in Bind's comment -----

  /** Two inputs after the receiver that compete for the same slot. */
  predicate HasDuplicateSlot(ins: seq<GoType>)
  {
    exists i, j :: 1 <= i < j < |ins| && KindOf(ins[i]) == KindOf(ins[j])
  }

  /** An input declared as *http.Header. */
  predicate HasPointerHeader(ins: seq<GoType>)
  {
    exists i :: 1 <= i < |ins| && ins[i].Ptr? && IsHttpHeaderSignature(ins[i].elem)
  }

  /** initInParams as the signature list in Bind's comment (server.go,
      lines 157-168) reads: every listed signature has at most one header,
      one query and one content parameter, so a method with two inputs
      for one slot is not an action; nor is one with a *http.Header input,
      which the handler can never fill. */
  function StrictInParamSlots(ins: seq<GoType>): Option<Slots>
  {
    if HasDuplicateSlot(ins) || HasPointerHeader(ins) then None else InParamSlots(ins)
  }

  /** Under the stricter classifier every input after the receiver owns
      exactly one slot: the slot of its kind points back at it, and there
      are as many slots as such inputs. */
  lemma StrictSlotsCover(ins: seq<GoType>)
    requires |ins| >= 1
    requires StrictInParamSlots(ins).Some?
    ensures var s := StrictInParamSlots(ins).value;
            PresentSlots(s) == |ins| - 1 &&
            (forall i :: 1 <= i < |ins| ==> SlotIndex(s, KindOf(ins[i])) == Some(i)) &&
            (forall k :: SlotIndex(s, k).Some? ==> 1 <= SlotIndex(s, k).value < |ins|)
  {
    var s := StrictInParamSlots(ins).value;
    InParamSlotsSpec(ins);
    assert Tracks(ins, |ins|, s);
    forall i | 1 <= i < |ins|
      ensures SlotIndex(s, KindOf(ins[i])) == Some(i)
    {
      var k := KindOf(ins[i]);
      assert SomeOfKind(ins, |ins|, k);
      var j := SlotIndex(s, k).value;
      assert LastOfKind(ins, |ins|, j, k);
      assert i <= j;
      assert !HasDuplicateSlot(ins);
    }
    // The present slots are exactly the kinds of inputs 1 .. |ins|-1, which are pairwise distinct.
    assert PresentSlots(s) == (if SlotIndex(s, HeaderSlot).Some? then 1 else 0)
      + (if SlotIndex(s, QuerySlot).Some? then 1 else 0) + (if SlotIndex(s, BodySlot).Some? then 1 else 0);
    assert forall k :: SlotIndex(s, k).Some? <==> SomeOfKind(ins, |ins|, k);
    if |ins| == 1 {
      assert forall k :: !SomeOfKind(ins, |ins|, k);
    } else if |ins| == 2 {
      assert SomeOfKind(ins, |ins|, KindOf(ins[1]));
      assert forall k :: SomeOfKind(ins, |ins|, k) <==> k == KindOf(ins[1]);
    } else if |ins| == 3 {
      assert KindOf(ins[1]) != KindOf(ins[2]);
      assert SomeOfKind(ins, |ins|, KindOf(ins[1])) && SomeOfKind(ins, |ins|, KindOf(ins[2]));
      assert forall k :: SomeOfKind(ins, |ins|, k) <==> k == KindOf(ins[1]) || k == KindOf(ins[2]);
    } else {
      assert KindOf(ins[1]) != KindOf(ins[2]) && KindOf(ins[1]) != KindOf(ins[3]) && KindOf(ins[2]) != KindOf(ins[3]);
      assert forall k :: SomeOfKind(ins, |ins|, k);
    }
  }

  /** The Action Descriptor of one bound method (actionInOutParams without
      the reflect values): the route, the result count, the slots and the
      method's input types, which reflect's Call checks arguments against. */
  datatype Descriptor = Descriptor(
    methodName: string,
    verb: Verb,
    resource: string,
    action: string,
    outCount: nat,
    slots: Slots,
    ins: seq<GoType>)
}
