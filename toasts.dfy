/** The toast queue of src/components/ToastProvider.tsx: `showToast`
    appends a notification stamped with the clock, each toast's close
    removes every toast with its id, and `useToast` refuses to run outside
    a provider. */
module Toasts {
  import opened Seqs
  import opened JsValues

  datatype Position = Top | TopRight | TopLeft | Bottom | BottomRight | BottomLeft
  datatype Kind = Success | Error | Warning | Info

  datatype Toast = Toast(id: int, message: string, position: Position, duration: int, kind: Kind)

  /** The options argument; a missing option is `None`. */
  datatype Options = Options(position: Option<Position>, duration: Option<int>, kind: Option<Kind>)

  /** The toast `showToast(message, options)` creates at time `now`
      (`Date.now()`); a missing option takes its default. */
  function NewToast(message: string, options: Options, now: int): (t: Toast)
    ensures t.id == now && t.message == message
    ensures t.position == (if options.position.Some? then options.position.value else Top)
    ensures t.duration == (if options.duration.Some? then options.duration.value else 3000)
    ensures t.kind == (if options.kind.Some? then options.kind.value else Info)
  {
    Toast(now,
      message,
      match options.position case Some(p) => p case None => Top,
      match options.duration case Some(d) => d case None => 3000,
      match options.kind case Some(k) => k case None => Info)
  }

  /** `prev.filter(toast => toast.id !== id)` */
  function WithoutId(toasts: seq<Toast>, id: int): (r: seq<Toast>)
    ensures IsSubsequence(r, toasts)
    ensures forall t :: t in r <==> t in toasts && t.id != id
    ensures forall t :: multiset(r)[t] == if t.id != id then multiset(toasts)[t] else 0
    decreases |toasts|
  {
    if |toasts| == 0 then []
    else
      assert toasts == [toasts[0]] + toasts[1..];
      if toasts[0].id == id then WithoutId(toasts[1..], id)
      else [toasts[0]] + WithoutId(toasts[1..], id)
  }

  /** Removing an id no toast carries changes nothing. */
  lemma {:induction false} WithoutAbsentId(toasts: seq<Toast>, id: int)
    requires forall t :: t in toasts ==> t.id != id
    ensures WithoutId(toasts, id) == toasts
    decreases |toasts|
  {
    if |toasts| > 0 {
      assert toasts[0] in toasts;
      WithoutAbsentId(toasts[1..], id);
      assert toasts == [toasts[0]] + toasts[1..];
    }
  }

  /** Removal distributes over an append, so a toast shown after others
      is removed without disturbing them. */
  lemma {:induction false} WithoutIdAppend(a: seq<Toast>, b: seq<Toast>, id: int)
    ensures WithoutId(a + b, id) == WithoutId(a, id) + WithoutId(b, id)
    decreases |a|
  {
    if |a| > 0 {
      assert (a + b)[1..] == a[1..] + b;
      WithoutIdAppend(a[1..], b, id);
    } else {
      assert a + b == b;
    }
  }

  /** A newly shown toast, closed again, leaves the earlier toasts as they
      were when no earlier toast shares its timestamp. */
  lemma ShowThenClose(toasts: seq<Toast>, message: string, options: Options, now: int)
    requires forall t :: t in toasts ==> t.id != now
    ensures WithoutId(toasts + [NewToast(message, options, now)], now) == toasts
  {
    WithoutIdAppend(toasts, [NewToast(message, options, now)], now);
    WithoutAbsentId(toasts, now);
  }

  class ToastProvider {
    var toasts: seq<Toast>

    constructor ()
      ensures toasts == []
    {
      toasts := [];
    }

    method ShowToast(message: string, options: Options, now: int)
      modifies this
      ensures toasts == old(toasts) + [NewToast(message, options, now)]
    {
      toasts := toasts + [NewToast(message, options, now)];
    }

    /** The `onClose` of a toast. */
    method RemoveToast(id: int)
      modifies this
      ensures toasts == WithoutId(old(toasts), id)
    {
      toasts := WithoutId(toasts, id);
    }
  }

  /** `useToast()`: the context, or the error thrown outside a provider. */
  datatype Outcome<C> = Context(context: C) | Thrown(message: string)

  function UseToast<C>(provided: Option<C>): (r: Outcome<C>)
    ensures r.Thrown? <==> provided.None?
    ensures r.Thrown? ==> r.message == "useToast must be used within a ToastProvider"
    ensures provided.Some? ==> r == Context(provided.value)
  {
    match provided
    case None => Thrown("useToast must be used within a ToastProvider")
    case Some(c) => Context(c)
  }
}
