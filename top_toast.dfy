/** The top toast provider of apps/web/src/components/ui/top-toast.tsx:
    the list of toasts on display, how it grows and shrinks, the
    auto-dismiss delay, and the `useTopToast` helpers that fill in a
    default variant.

    The random id of a new toast and the firing of its timer are inputs:
    `AddToast` takes the id, and `Expire` is the timer going off. */
module TopToast {
  import opened Wrappers

  /** Delay, in milliseconds, used when a toast names no duration (or 0). */
  const DefaultDuration: int := 5000

  datatype Variant = Success | Error | Info | Warning

  /** A toast as a caller describes it: every field but the id
      (the `Omit<Toast, 'id'>` argument of `addToast`). */
  datatype ToastInput = ToastInput(
    title: string,
    description: Option<string>,
    variant: Variant,
    duration: Option<int>)

  /** A toast on display. */
  datatype Toast = Toast(
    id: string,
    title: string,
    description: Option<string>,
    variant: Variant,
    duration: Option<int>)

  /** The options object accepted by `useTopToast().toast`. */
  datatype ToastOptions = ToastOptions(
    title: string,
    description: Option<string>,
    variant: Option<Variant>,
    duration: Option<int>)

  /** The caller-supplied part of a toast: every field but the id. */
  function Omit(t: Toast): (r: ToastInput)
    ensures r.title == t.title && r.description == t.description
    ensures r.variant == t.variant && r.duration == t.duration
  {
    ToastInput(t.title, t.description, t.variant, t.duration)
  }

  /** `{ ...toast, id }`: the new record keeps every caller-supplied field
      and gains the id. */
  function WithId(input: ToastInput, id: string): (r: Toast)
    ensures r.id == id && Omit(r) == input
  {
    Toast(id, input.title, input.description, input.variant, input.duration)
  }

  /** `toast.duration || 5000`, the value handed to `setTimeout`: an absent
      or zero duration falls back to the default, so the value is never 0. */
  function EffectiveDuration(duration: Option<int>): (r: int)
    ensures r != 0
    ensures r == DefaultDuration || duration == Some(r)
    ensures duration.Some? && duration.value != 0 ==> r == duration.value
    ensures duration.None? || duration.value == 0 ==> r == DefaultDuration
  {
    match duration
    case Some(d) => if d != 0 then d else DefaultDuration
    case None => DefaultDuration
  }

  /** `prev.filter(t => t.id !== id)`: the toasts whose id differs. */
  function Without(ts: seq<Toast>, id: string): (r: seq<Toast>)
    ensures |r| <= |ts|
    ensures forall t :: t in r <==> t in ts && t.id != id
  {
    if ts == [] then []
    else if ts[0].id != id then [ts[0]] + Without(ts[1..], id)
    else Without(ts[1..], id)
  }

  /** Filtering distributes over concatenation, so the toasts that remain
      keep their relative order. */
  lemma {:induction false} WithoutAppend(a: seq<Toast>, b: seq<Toast>, id: string)
    ensures Without(a + b, id) == Without(a, id) + Without(b, id)
  {
    if a == [] {
      assert a + b == b;
    } else {
      assert (a + b)[1..] == a[1..] + b;
      WithoutAppend(a[1..], b, id);
    }
  }

  /** Removing an id that no toast carries changes nothing. */
  lemma {:induction false} WithoutAbsent(ts: seq<Toast>, id: string)
    requires forall t :: t in ts ==> t.id != id
    ensures Without(ts, id) == ts
  {
    if ts != [] {
      WithoutAbsent(ts[1..], id);
    }
  }

  /** Removing an id twice is the same as removing it once: a timer that
      fires after a manual dismissal does nothing. */
  lemma WithoutIdempotent(ts: seq<Toast>, id: string)
    ensures Without(Without(ts, id), id) == Without(ts, id)
  {
    WithoutAbsent(Without(ts, id), id);
  }

  /** Dismissals of two ids may happen in either order. */
  lemma {:induction false} WithoutCommutes(ts: seq<Toast>, a: string, b: string)
    ensures Without(Without(ts, a), b) == Without(Without(ts, b), a)
  {
    if ts != [] {
      WithoutCommutes(ts[1..], a, b);
    }
  }

  /** Adding a toast and then removing its id leaves exactly the other toasts
      that did not carry that id, in their old order. */
  lemma AddThenRemove(ts: seq<Toast>, input: ToastInput, id: string)
    ensures Without(ts + [WithId(input, id)], id) == Without(ts, id)
  {
    WithoutAppend(ts, [WithId(input, id)], id);
  }

  /** `useTopToast().toast(options)`: `{ variant: 'info', ...options }`. */
  function ToastRequest(options: ToastOptions): (r: ToastInput)
    ensures r.title == options.title && r.description == options.description
    ensures r.duration == options.duration
    ensures options.variant.Some? ==> r.variant == options.variant.value
    ensures options.variant.None? ==> r.variant == Info
  {
    ToastInput(
      options.title,
      options.description,
      match options.variant case Some(v) => v case None => Info,
      options.duration)
  }

  /** `useTopToast().success/error/info/warning(title, description)`: a toast
      of that variant with no duration, so it stays for the default delay. */
  function Preset(variant: Variant, title: string, description: Option<string>): (r: ToastInput)
    ensures r.variant == variant && r.title == title && r.description == description
    ensures r.duration == None
    ensures EffectiveDuration(r.duration) == DefaultDuration
  {
    ToastInput(title, description, variant, None)
  }

  /** The provider's state: the toasts on display, in insertion order, and
      the ids of the auto-dismiss timers that have not fired yet. */
  class ToastProvider {
    var toasts: seq<Toast>
    var pendingTimers: multiset<string>

    /** Every toast on display still has a timer that will remove it. */
    ghost predicate Valid()
      reads this
    {
      forall t :: t in toasts ==> t.id in pendingTimers
    }

    constructor ()
      ensures Valid()
      ensures toasts == [] && pendingTimers == multiset{}
    {
      toasts := [];
      pendingTimers := multiset{};
    }

    /** `addToast(input)` with `id` as the generated id: appends the record and
        schedules its timer; `delay` is the timer's delay in milliseconds. */
    method AddToast(input: ToastInput, id: string) returns (delay: int)
      requires Valid()
      modifies this
      ensures Valid()
      ensures toasts == old(toasts) + [WithId(input, id)]
      ensures pendingTimers == old(pendingTimers) + multiset{id}
      ensures delay == EffectiveDuration(input.duration)
    {
      toasts := toasts + [WithId(input, id)];
      pendingTimers := pendingTimers + multiset{id};
      delay := EffectiveDuration(input.duration);
    }

    /** `removeToast(id)`: the close button. Timers are not cancelled. */
    method RemoveToast(id: string)
      requires Valid()
      modifies this
      ensures Valid()
      ensures toasts == Without(old(toasts), id)
      ensures pendingTimers == old(pendingTimers)
    {
      toasts := Without(toasts, id);
    }

    /** The timer scheduled for `id` fires and applies the same filter as
        `removeToast`. */
    method Expire(id: string)
      requires Valid()
      requires id in pendingTimers
      modifies this
      ensures Valid()
      ensures toasts == Without(old(toasts), id)
      ensures pendingTimers == old(pendingTimers) - multiset{id}
    {
      toasts := Without(toasts, id);
      pendingTimers := pendingTimers - multiset{id};
    }
  }
}
