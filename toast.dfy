/** The toast notification queue held by `ToastProvider`
    (social-versity/src/context/ToastContext.jsx). */
module Toasts {
  import Lists
  import opened Wrappers

  /** A toast on screen: `{ id, message, type }`. */
  datatype Toast = Toast(id: int, message: string, kind: string)

  /** What a page handler asks the provider to show: the arguments of its `addToast` call. */
  datatype ToastRequest = ToastRequest(message: string, kind: Option<string>)

  const DefaultKind: string := "info"

  /** `type = 'info'`: the default parameter of `addToast`. */
  function KindOrDefault(kind: Option<string>): (k: string)
    ensures kind.Some? ==> k == kind.value
    ensures kind.None? ==> k == "info"
  {
    match kind
    case Some(t) => t
    case None => DefaultKind
  }

  /** `prev.filter(toast => toast.id !== id)`. */
  function WithoutId(toasts: seq<Toast>, id: int): (r: seq<Toast>)
    ensures forall t :: t in r ==> t in toasts && t.id != id
    ensures forall t :: t in toasts && t.id != id ==> t in r
    ensures forall t | t in toasts :: multiset(r)[t] == if t.id != id then multiset(toasts)[t] else 0
    ensures Lists.IsSubsequence(r, toasts)
  {
    Lists.Filter(toasts, KeepsOtherThan(id))
  }

  function KeepsOtherThan(id: int): Toast -> bool {
    (t: Toast) => t.id != id
  }

  /** `useToast`: reading the context outside a provider is an error rather than a value. */
  function UseToast<C>(context: Option<C>): (r: Result<C>)
    ensures r.Ok? <==> context.Some?
    ensures r.Ok? ==> r.value == context.value
    ensures r.Err? ==> r.message == "useToast must be used within a ToastProvider"
  {
    match context
    case Some(c) => Ok(c)
    case None => Err("useToast must be used within a ToastProvider")
  }

  class ToastProvider {
    var toasts: seq<Toast>

    constructor ()
      ensures toasts == []
    {
      toasts := [];
    }

    /** `addToast(message, type)`; `now` stands for `Date.now()`, which becomes the id. The
        auto-dismiss timer is not part of this method: it is a later `RemoveToast(now)`. */
    method AddToast(message: string, kind: Option<string>, now: int)
      modifies this`toasts
      ensures toasts == old(toasts) + [Toast(now, message, KindOrDefault(kind))]
    {
      toasts := toasts + [Toast(now, message, KindOrDefault(kind))];
    }

    /** `removeToast(id)`. */
    method RemoveToast(id: int)
      modifies this`toasts
      ensures toasts == WithoutId(old(toasts), id)
    {
      toasts := WithoutId(toasts, id);
    }
  }

  /** Removing an id twice is removing it once. */
  lemma RemoveIdempotent(toasts: seq<Toast>, id: int)
    ensures WithoutId(WithoutId(toasts, id), id) == WithoutId(toasts, id)
  {
    Lists.FilterIdempotent(toasts, KeepsOtherThan(id));
  }

  /** Removing an id no toast carries leaves the queue unchanged. */
  lemma RemoveAbsentId(toasts: seq<Toast>, id: int)
    requires forall t :: t in toasts ==> t.id != id
    ensures WithoutId(toasts, id) == toasts
  {
    Lists.FilterKeepsAll(toasts, KeepsOtherThan(id));
  }

  /** Adding a toast under a fresh id and then removing that id restores the queue. */
  lemma AddThenRemove(toasts: seq<Toast>, message: string, kind: Option<string>, now: int)
    requires forall t :: t in toasts ==> t.id != now
    ensures WithoutId(toasts + [Toast(now, message, KindOrDefault(kind))], now) == toasts
  {
    var added := Toast(now, message, KindOrDefault(kind));
    Lists.FilterAppend(toasts, [added], KeepsOtherThan(now));
    Lists.FilterKeepsAll(toasts, KeepsOtherThan(now));
    assert Lists.Filter([added], KeepsOtherThan(now)) == [];
  }

  /** Two toasts added within the same millisecond share an id, so removing one removes both. */
  lemma SameMillisecondRemovesBoth(a: string, b: string, now: int)
    ensures WithoutId([Toast(now, a, "info"), Toast(now, b, "info")], now) == []
  {
    var s := [Toast(now, a, "info"), Toast(now, b, "info")];
    assert s[1..][1..] == [];
  }
}
