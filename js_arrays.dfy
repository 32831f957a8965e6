/** The lookups the JavaScript sources make with `find` and `findIndex`
    over a list parsed from JSON, comparing `q.id` with a value by `===`. */
module JsArrays {
  import opened Common

  /** What `q.id` gives on a value parsed from JSON: null raises a
      TypeError, an object without the key and any other value give
      undefined. */
  datatype Prop = Undefined | Value(v: Json) | Raises

  function IdOf(q: Json): (p: Prop)
    ensures p.Raises? <==> q.JNull?
    ensures p.Value? ==> q.JObj? && "id" in q.fields && p.v == q.fields["id"]
  {
    match q
    case JNull => Raises
    case JObj(f) => if "id" in f then Value(f["id"]) else Undefined
    case _ => Undefined
  }

  /** `a === b` on values parsed from JSON: two lists or two objects
      parsed apart are never the same object. */
  predicate StrictEquals(a: Json, b: Json) {
    a == b && !a.JArr? && !a.JObj?
  }

  /** `q.id === target`; a target of None (NaN, undefined) is equal to
      nothing. */
  predicate HasId(q: Json, target: Option<Json>) {
    target.Some? && IdOf(q).Value? && StrictEquals(IdOf(q).v, target.value)
  }

  /** The outcome of `find`/`findIndex`: the index of the first match, no
      match (-1, undefined), or the TypeError of a null met before any
      match. */
  datatype Search = At(i: nat) | Absent | Threw(i: nat)

  /** The callback does not match and does not raise on `q`. */
  predicate PassedOver(q: Json, n: Option<Json>) {
    !HasId(q, n) && !IdOf(q).Raises?
  }

  /** The scan of `find`/`findIndex` from index k on. */
  function FindFrom(qs: seq<Json>, n: Option<Json>, k: nat): (r: Search)
    requires k <= |qs|
    ensures r.At? ==> k <= r.i < |qs| && HasId(qs[r.i], n)
    ensures r.Threw? ==> k <= r.i < |qs| && IdOf(qs[r.i]).Raises?
    ensures r.Absent? ==> forall j :: k <= j < |qs| ==> PassedOver(qs[j], n)
    ensures !r.Absent? ==> forall j :: k <= j < r.i ==> PassedOver(qs[j], n)
    decreases |qs| - k
  {
    if k == |qs| then Absent
    else if IdOf(qs[k]).Raises? then Threw(k)
    else if HasId(qs[k], n) then At(k)
    else FindFrom(qs, n, k + 1)
  }

  function Find(qs: seq<Json>, n: Option<Json>): Search {
    FindFrom(qs, n, 0)
  }

  /** The scan's outcome is the one its description allows and no other:
      a first match, or a first null. */
  lemma FindIsFirst(qs: seq<Json>, n: Option<Json>, i: nat)
    requires i < |qs| && (HasId(qs[i], n) || IdOf(qs[i]).Raises?)
    requires forall j :: 0 <= j < i ==> PassedOver(qs[j], n)
    ensures Find(qs, n) == (if HasId(qs[i], n) then At(i) else Threw(i))
  {
    FindFromIsFirst(qs, n, i, 0);
  }

  lemma {:induction false} FindFromIsFirst(qs: seq<Json>, n: Option<Json>, i: nat, k: nat)
    requires k <= i < |qs| && (HasId(qs[i], n) || IdOf(qs[i]).Raises?)
    requires forall j :: k <= j < i ==> PassedOver(qs[j], n)
    ensures FindFrom(qs, n, k) == (if HasId(qs[i], n) then At(i) else Threw(i))
    decreases i - k
  {
    if k < i {
      assert PassedOver(qs[k], n);
      FindFromIsFirst(qs, n, i, k + 1);
    }
  }

  /** Or neither anywhere. */
  lemma {:induction false} FindFromNone(qs: seq<Json>, n: Option<Json>, k: nat)
    requires k <= |qs|
    requires forall j :: k <= j < |qs| ==> PassedOver(qs[j], n)
    ensures FindFrom(qs, n, k) == Absent
    decreases |qs| - k
  {
    if k < |qs| {
      assert PassedOver(qs[k], n);
      FindFromNone(qs, n, k + 1);
    }
  }

  /** `q.id` raises on no item of the list, so `map` and `filter` go
      through. */
  predicate NoNull(qs: seq<Json>) {
    forall i :: 0 <= i < |qs| ==> !qs[i].JNull?
  }
}
