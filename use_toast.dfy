/** The notification queue (hooks/useToast.tsx): a list of toasts and an id
    counter. The five-second auto-dismiss timer is left out; its effect is a
    later `RemoveToast` of the same id. */
module UseToast {
  import opened Wrappers

  datatype ToastType = SuccessToast | ErrorToast | WarningToast | InfoToast

  datatype Toast = Toast(id: nat, message: string, kind: ToastType)

  /** A message a page asks to show, before it gets an id. */
  datatype Notice = Notice(message: string, kind: ToastType)

  /** What `useToast` throws outside its provider: it returns `context.ToResult(OUTSIDE_PROVIDER)`. */
  const OUTSIDE_PROVIDER: string := "useToast must be used within a ToastProvider"

  /** `getToastClasses`: the background colour of each kind. */
  function ToastClasses(kind: ToastType): string
  {
    match kind
    case SuccessToast => "bg-green-500"
    case ErrorToast => "bg-red-500"
    case WarningToast => "bg-yellow-500"
    case InfoToast => "bg-blue-500"
  }

  /** Each kind has a colour of its own. */
  lemma ToastClassesDistinct(a: ToastType, b: ToastType)
    requires a != b
    ensures ToastClasses(a) != ToastClasses(b)
  {
  }

  /** No two toasts share an id. */
  predicate IdsDistinct(toasts: seq<Toast>)
  {
    forall i, j | 0 <= i < j < |toasts| :: toasts[i].id != toasts[j].id
  }

  /** Every id is below the counter. */
  predicate IdsBelow(toasts: seq<Toast>, counter: nat)
  {
    forall i | 0 <= i < |toasts| :: toasts[i].id < counter
  }

  /** `removeToast`'s filter: drops the toasts with this id, keeping the rest in order. */
  function RemoveById(toasts: seq<Toast>, id: nat): (r: seq<Toast>)
    ensures |r| <= |toasts|
  {
    if toasts == [] then []
    else (if toasts[0].id == id then [] else [toasts[0]]) + RemoveById(toasts[1..], id)
  }

  /** What stays is exactly the toasts with another id; with no toast of that
      id nothing changes. */
  lemma {:induction false} RemoveByIdMembers(toasts: seq<Toast>, id: nat)
    ensures forall t :: t in RemoveById(toasts, id) <==> t in toasts && t.id != id
    ensures (forall i | 0 <= i < |toasts| :: toasts[i].id != id) ==> RemoveById(toasts, id) == toasts
  {
    if toasts != [] {
      RemoveByIdMembers(toasts[1..], id);
      assert toasts == [toasts[0]] + toasts[1..];
      forall t ensures t in toasts <==> t == toasts[0] || t in toasts[1..] {
      }
    }
  }

  /** Removing keeps the relative order of what stays: it works piecewise. */
  lemma {:induction false} RemoveByIdAppend(a: seq<Toast>, b: seq<Toast>, id: nat)
    ensures RemoveById(a + b, id) == RemoveById(a, id) + RemoveById(b, id)
  {
    if a == [] {
      assert a + b == b;
    } else {
      assert (a + b)[0] == a[0];
      assert (a + b)[1..] == a[1..] + b;
      RemoveByIdAppend(a[1..], b, id);
    }
  }

  /** Removing the same id twice is removing it once; removing keeps ids distinct. */
  lemma RemoveByIdIdempotent(toasts: seq<Toast>, id: nat)
    ensures RemoveById(RemoveById(toasts, id), id) == RemoveById(toasts, id)
    ensures IdsDistinct(toasts) ==> IdsDistinct(RemoveById(toasts, id))
  {
    var r := RemoveById(toasts, id);
    RemoveByIdMembers(toasts, id);
    RemoveByIdMembers(r, id);
    if IdsDistinct(toasts) {
      RemoveByIdPreservesDistinct(toasts, id);
    }
  }

  lemma {:induction false} RemoveByIdPreservesDistinct(toasts: seq<Toast>, id: nat)
    requires IdsDistinct(toasts)
    ensures IdsDistinct(RemoveById(toasts, id))
  {
    if toasts != [] {
      var tail := RemoveById(toasts[1..], id);
      RemoveByIdPreservesDistinct(toasts[1..], id);
      RemoveByIdMembers(toasts[1..], id);
      forall t | t in tail ensures t.id != toasts[0].id {
        var k :| 0 <= k < |toasts[1..]| && toasts[1..][k] == t;
        assert toasts[k + 1] == t;
      }
    }
  }

  /** Appending a toast whose id is the counter keeps ids distinct and below
      the advanced counter. */
  lemma AppendFreshId(toasts: seq<Toast>, counter: nat, message: string, kind: ToastType)
    requires IdsDistinct(toasts) && IdsBelow(toasts, counter)
    ensures IdsDistinct(toasts + [Toast(counter, message, kind)])
    ensures IdsBelow(toasts + [Toast(counter, message, kind)], counter + 1)
  {
  }

  /** Two toasts appended with the same captured counter share their id, and
      dismissing either one removes both. */
  lemma SameCapturedCounterCollides(toasts: seq<Toast>, captured: nat, m1: string, k1: ToastType,
                                    m2: string, k2: ToastType)
    ensures !IdsDistinct(toasts + [Toast(captured, m1, k1)] + [Toast(captured, m2, k2)])
    ensures Toast(captured, m1, k1) !in RemoveById(toasts + [Toast(captured, m1, k1)] + [Toast(captured, m2, k2)], captured)
    ensures Toast(captured, m2, k2) !in RemoveById(toasts + [Toast(captured, m1, k1)] + [Toast(captured, m2, k2)], captured)
  {
    var r := toasts + [Toast(captured, m1, k1)] + [Toast(captured, m2, k2)];
    assert r[|toasts|].id == r[|toasts| + 1].id;
    RemoveByIdMembers(r, captured);
  }

  class ToastProvider {
    var toasts: seq<Toast>
    var idCounter: nat
    /** The counter value the current `addToast` callback closed over: the one
        of the last render. */
    var capturedCounter: nat

    /** Ids are distinct, below the counter, and the callback is not ahead of the counter. */
    predicate Valid()
      reads this
    {
      IdsDistinct(toasts) && IdsBelow(toasts, idCounter) && capturedCounter <= idCounter
    }

    constructor()
      ensures toasts == [] && idCounter == 0 && capturedCounter == 0
      ensures Valid()
    {
      toasts := [];
      idCounter := 0;
      capturedCounter := 0;
    }

    /** A re-render: the callback is recreated over the current counter. */
    method Render()
      modifies this
      ensures capturedCounter == idCounter
      ensures toasts == old(toasts) && idCounter == old(idCounter)
      ensures old(Valid()) ==> Valid()
    {
      capturedCounter := idCounter;
    }

    /** `addToast` as written: the id is the counter the callback captured;
        the counter itself advances by a functional update. */
    method AddToastAsWritten(message: string, kind: ToastType)
      modifies this
      ensures toasts == old(toasts) + [Toast(old(capturedCounter), message, kind)]
      ensures idCounter == old(idCounter) + 1 && capturedCounter == old(capturedCounter)
    {
      var id := capturedCounter;
      idCounter := idCounter + 1;
      toasts := toasts + [Toast(id, message, kind)];
    }

    /** `addToast` with the id read from the live counter: appends at the end,
        advances the counter and keeps ids distinct. */
    method AddToast(message: string, kind: ToastType)
      modifies this
      requires Valid()
      ensures toasts == old(toasts) + [Toast(old(idCounter), message, kind)]
      ensures idCounter == old(idCounter) + 1 && capturedCounter == old(capturedCounter)
      ensures Valid()
    {
      var id := idCounter;
      AppendFreshId(toasts, id, message, kind);
      idCounter := idCounter + 1;
      toasts := toasts + [Toast(id, message, kind)];
    }

    /** Shows the notices a handler raised, in order. */
    method Notify(notices: seq<Notice>)
      modifies this
      requires Valid()
      ensures |toasts| == |old(toasts)| + |notices| && toasts[..|old(toasts)|] == old(toasts)
      ensures forall i | 0 <= i < |notices| ::
        toasts[|old(toasts)| + i] == Toast(old(idCounter) + i, notices[i].message, notices[i].kind)
      ensures idCounter == old(idCounter) + |notices|
      ensures Valid()
    {
      var i := 0;
      while i < |notices|
        invariant 0 <= i <= |notices|
        invariant Valid()
        invariant idCounter == old(idCounter) + i
        invariant |toasts| == |old(toasts)| + i && toasts[..|old(toasts)|] == old(toasts)
        invariant forall j | 0 <= j < i ::
          toasts[|old(toasts)| + j] == Toast(old(idCounter) + j, notices[j].message, notices[j].kind)
      {
        AddToast(notices[i].message, notices[i].kind);
        i := i + 1;
      }
    }

    /** Two notices from one handler, as written: one closure, so one id. */
    method NotifyTwiceAsWritten(first: Notice, second: Notice)
      modifies this
      ensures |toasts| == |old(toasts)| + 2
      ensures toasts[|toasts| - 1].id == toasts[|toasts| - 2].id == old(capturedCounter)
      ensures !IdsDistinct(toasts)
    {
      AddToastAsWritten(first.message, first.kind);
      AddToastAsWritten(second.message, second.kind);
      SameCapturedCounterCollides(old(toasts), old(capturedCounter), first.message, first.kind,
                                  second.message, second.kind);
    }

    /** `removeToast`. */
    method RemoveToast(id: nat)
      modifies this
      ensures toasts == RemoveById(old(toasts), id)
      ensures idCounter == old(idCounter) && capturedCounter == old(capturedCounter)
      ensures old(Valid()) ==> Valid()
    {
      var before := toasts;
      ghost var wasValid := Valid();
      RemoveByIdIdempotent(before, id);
      RemoveByIdMembers(before, id);
      toasts := RemoveById(before, id);
      forall i | 0 <= i < |toasts| && wasValid ensures toasts[i].id < idCounter {
        assert toasts[i] in before;
        var k :| 0 <= k < |before| && before[k] == toasts[i];
      }
    }
  }
}
