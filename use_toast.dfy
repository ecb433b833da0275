/** The legacy toast hook of apps/web/src/hooks/use-toast.ts: it accepts the
    older options shape (`default`/`destructive` variants, optional title) and
    forwards to one of the `useTopToast` helpers. */
module LegacyToast {
  import opened Wrappers
  import TopToast

  /** Title used when the caller gives none, or an empty one. */
  const DefaultTitle: string := "Notification"

  datatype LegacyVariant = Default | Destructive | Success | Info | Warning

  datatype ToastOptions = ToastOptions(
    title: Option<string>,
    description: Option<string>,
    variant: Option<LegacyVariant>,
    duration: Option<int>)

  /** `title || "Notification"`: the empty string is falsy. */
  function Message(title: Option<string>): (r: string)
    ensures r != ""
    ensures title.Some? && title.value != "" ==> r == title.value
    ensures title.None? || title.value == "" ==> r == DefaultTitle
  {
    match title
    case Some(t) => if t != "" then t else DefaultTitle
    case None => DefaultTitle
  }

  /** The `switch` on the variant (absent means `"default"`): which top toast
      helper receives the call. */
  function TopVariant(variant: Option<LegacyVariant>): (r: TopToast.Variant)
    ensures r == TopToast.Error <==> variant == Some(Destructive)
    ensures r == TopToast.Success <==> variant == Some(Success)
    ensures r == TopToast.Warning <==> variant == Some(Warning)
    ensures r == TopToast.Info <==> variant in {None, Some(Default), Some(Info)}
  {
    match variant
    case Some(Destructive) => TopToast.Error
    case Some(Success) => TopToast.Success
    case Some(Warning) => TopToast.Warning
    case Some(Info) => TopToast.Info
    case _ => TopToast.Info
  }

  /** `useToast().toast(options)`: the toast it hands to the top toast
      provider. The description is forwarded as is; the duration is dropped. */
  function Toast(options: ToastOptions): (r: TopToast.ToastInput)
    ensures r.variant == TopVariant(options.variant)
    ensures r.title == Message(options.title) && r.title != ""
    ensures r.description == options.description
    ensures r.duration == None
    ensures TopToast.EffectiveDuration(r.duration) == TopToast.DefaultDuration
  {
    TopToast.Preset(TopVariant(options.variant), Message(options.title), options.description)
  }

  /** The caller's duration has no effect on the toast produced. */
  lemma DurationIgnored(options: ToastOptions, duration: Option<int>)
    ensures Toast(options.(duration := duration)) == Toast(options)
  {
  }

  /** Every variant of the top toast can be reached through the legacy hook,
      and a non-empty title is passed through unchanged. */
  lemma EveryVariantReachable(v: TopToast.Variant, title: string, description: Option<string>)
    requires title != ""
    ensures exists lv :: Toast(ToastOptions(Some(title), description, Some(lv), None))
                         == TopToast.Preset(v, title, description)
  {
    var lv := match v
      case Error => Destructive
      case Success => LegacyVariant.Success
      case Warning => LegacyVariant.Warning
      case Info => LegacyVariant.Info;
    assert Toast(ToastOptions(Some(title), description, Some(lv), None))
        == TopToast.Preset(v, title, description);
  }
}
