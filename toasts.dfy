/**
 * `useToast`: a queue of notifications with ids from one counter shared by
 * every hook instance (the module-level `toastId`).
 */
module Toasts {
  import opened Wrappers
  import opened Seqs
  import opened JsValues

  datatype ToastKind = Success | Error | Warning | Info

  /** The `type` string a kind is passed as. */
  function KindName(kind: ToastKind): string {
    match kind
    case Success => "success"
    case Error => "error"
    case Warning => "warning"
    case Info => "info"
  }

  datatype Toast = Toast(id: string, message: string, kind: ToastKind, duration: int)

  const DefaultKind := Info
  const DefaultDuration := 5000

  /** The toast component schedules its own removal exactly when the duration is positive. */
  predicate AutoCloses(t: Toast) {
    t.duration > 0
  }

  /** The id of the `n`-th toast of the page. */
  function ToastId(n: nat): string {
    "toast-" + IntToString(n)
  }

  /** Distinct counter values give distinct ids. */
  lemma ToastIdInjective(m: nat, n: nat)
    ensures ToastId(m) == ToastId(n) <==> m == n
  {
    if ToastId(m) == ToastId(n) {
      assert IntToString(m) == ToastId(m)[6..];
      assert IntToString(n) == ToastId(n)[6..];
      IntToStringInjective(m, n);
    }
  }

  /** The ids issued while the counter went from 0 up to `last`. */
  ghost function IssuedUpTo(last: nat): set<string> {
    set k: nat | 1 <= k <= last :: ToastId(k)
  }

  /** The module-level counter: `++toastId` before each use. */
  class ToastCounter {
    var last: nat
    ghost var issued: set<string>

    ghost predicate Valid()
      reads this
    {
      issued == IssuedUpTo(last)
    }

    /** `let toastId = 0`. */
    constructor()
      ensures Valid() && last == 0 && issued == {}
    {
      last := 0;
      issued := {};
    }

    /** `"toast-" + ++toastId`: an id never handed out before. */
    method Next() returns (id: string)
      requires Valid()
      modifies this
      ensures Valid()
      ensures last == old(last) + 1 && id == ToastId(last)
      ensures id !in old(issued)
      ensures issued == old(issued) + {id}
    {
      last := last + 1;
      id := ToastId(last);
      forall k: nat | 1 <= k < last ensures ToastId(k) != id {
        ToastIdInjective(k, last);
      }
      issued := issued + {id};
      assert IssuedUpTo(last) == IssuedUpTo(last - 1) + {id};
    }
  }

  /** `toasts.filter((toast) => toast.id !== id)`. */
  function RemoveToastById(toasts: seq<Toast>, id: string): seq<Toast> {
    Filter(toasts, (t: Toast) => t.id != id)
  }

  /**
   * A toast survives removal exactly when its id differs, as many times as it
   * occurred, and the survivors keep their order.
   */
  lemma RemoveToastMembers(toasts: seq<Toast>, id: string, t: Toast)
    ensures t in RemoveToastById(toasts, id) <==> t in toasts && t.id != id
    ensures multiset(RemoveToastById(toasts, id))[t] == if t.id != id then multiset(toasts)[t] else 0
    ensures IsSublist(RemoveToastById(toasts, id), toasts)
  {
    FilterMembers(toasts, (x: Toast) => x.id != id, t);
    FilterMultiset(toasts, (x: Toast) => x.id != id, t);
    FilterIsSublist(toasts, (x: Toast) => x.id != id);
  }

  /** Removing an id that no toast carries is a no-op. */
  lemma RemoveAbsentToast(toasts: seq<Toast>, id: string)
    requires forall i :: 0 <= i < |toasts| ==> toasts[i].id != id
    ensures RemoveToastById(toasts, id) == toasts
  {
    FilterKeepsAll(toasts, (x: Toast) => x.id != id);
  }

  /** Ids in a list of toasts are pairwise different. */
  predicate DistinctIds(toasts: seq<Toast>) {
    forall i, j :: 0 <= i < j < |toasts| ==> toasts[i].id != toasts[j].id
  }

  /** Removal keeps ids distinct. */
  lemma {:induction false} RemoveKeepsDistinctIds(toasts: seq<Toast>, id: string)
    requires DistinctIds(toasts)
    ensures DistinctIds(RemoveToastById(toasts, id))
    decreases |toasts|
  {
    if toasts != [] {
      var p := (x: Toast) => x.id != id;
      var tail := toasts[1..];
      assert DistinctIds(tail) by {
        forall i, j | 0 <= i < j < |tail| ensures tail[i].id != tail[j].id {
          assert tail[i] == toasts[i + 1] && tail[j] == toasts[j + 1];
        }
      }
      RemoveKeepsDistinctIds(tail, id);
      var rest := RemoveToastById(tail, id);
      if p(toasts[0]) {
        var r := RemoveToastById(toasts, id);
        assert r == [toasts[0]] + rest;
        forall j | 0 <= j < |rest| ensures rest[j].id != toasts[0].id {
          assert rest[j] in rest;
          FilterMembers(tail, p, rest[j]);
          var k :| 0 <= k < |tail| && tail[k] == rest[j];
          assert tail[k] == toasts[k + 1];
        }
        forall i, j | 0 <= i < j < |r| ensures r[i].id != r[j].id {
          if i == 0 {
            assert r[j] == rest[j - 1];
          } else {
            assert r[i] == rest[i - 1] && r[j] == rest[j - 1];
          }
        }
      } else {
        assert RemoveToastById(toasts, id) == rest;
      }
    }
  }

  /** The toasts one hook instance shows, over the page's shared counter. */
  class ToastQueue {
    var toasts: seq<Toast>
    const counter: ToastCounter

    /** Every shown toast has an id the counter issued, and no two share one. */
    ghost predicate Valid()
      reads this, counter
    {
      && counter.Valid()
      && (forall i :: 0 <= i < |toasts| ==> toasts[i].id in counter.issued)
      && DistinctIds(toasts)
    }

    /** `useState([])`. */
    constructor(counter: ToastCounter)
      requires counter.Valid()
      ensures this.counter == counter && toasts == [] && Valid()
    {
      this.counter := counter;
      toasts := [];
    }

    /**
     * `addToast(message, type = "info", duration = 5000)`: appends one toast
     * with a fresh id and returns that id; `None` is an omitted argument.
     */
    method AddToast(message: string, kind: Option<ToastKind>, duration: Option<int>) returns (id: string)
      requires Valid()
      modifies this, counter
      ensures Valid()
      ensures counter.last == old(counter.last) + 1 && id == ToastId(counter.last)
      ensures id !in old(counter.issued)
      ensures toasts == old(toasts) + [Toast(id, message, kind.GetOr(DefaultKind), duration.GetOr(DefaultDuration))]
    {
      id := counter.Next();
      var toast := Toast(id, message, kind.GetOr(DefaultKind), duration.GetOr(DefaultDuration));
      toasts := toasts + [toast];
    }

    /** `removeToast(id)`. */
    method RemoveToast(id: string)
      requires Valid()
      modifies this
      ensures Valid()
      ensures toasts == RemoveToastById(old(toasts), id)
    {
      var before := toasts;
      toasts := RemoveToastById(toasts, id);
      RemoveKeepsDistinctIds(before, id);
      forall i | 0 <= i < |toasts| ensures toasts[i].id in counter.issued {
        assert toasts[i] in toasts;
        FilterMembers(before, (x: Toast) => x.id != id, toasts[i]);
      }
    }

    /** `success(message, duration)`. */
    method ShowSuccess(message: string, duration: Option<int>) returns (id: string)
      requires Valid()
      modifies this, counter
      ensures Valid() && id !in old(counter.issued)
      ensures toasts == old(toasts) + [Toast(id, message, Success, duration.GetOr(DefaultDuration))]
    {
      id := AddToast(message, Some(Success), duration);
    }

    /** `error(message, duration)`. */
    method ShowError(message: string, duration: Option<int>) returns (id: string)
      requires Valid()
      modifies this, counter
      ensures Valid() && id !in old(counter.issued)
      ensures toasts == old(toasts) + [Toast(id, message, Error, duration.GetOr(DefaultDuration))]
    {
      id := AddToast(message, Some(Error), duration);
    }

    /** `warning(message, duration)`. */
    method ShowWarning(message: string, duration: Option<int>) returns (id: string)
      requires Valid()
      modifies this, counter
      ensures Valid() && id !in old(counter.issued)
      ensures toasts == old(toasts) + [Toast(id, message, Warning, duration.GetOr(DefaultDuration))]
    {
      id := AddToast(message, Some(Warning), duration);
    }

    /** `info(message, duration)`. */
    method ShowInfo(message: string, duration: Option<int>) returns (id: string)
      requires Valid()
      modifies this, counter
      ensures Valid() && id !in old(counter.issued)
      ensures toasts == old(toasts) + [Toast(id, message, Info, duration.GetOr(DefaultDuration))]
    {
      id := AddToast(message, Some(Info), duration);
    }
  }

  /** The first `Next` on a fresh counter issues `toast-1`. */
  method FirstToastId() returns (id: string)
    ensures id == "toast-1"
  {
    var counter := new ToastCounter();
    id := counter.Next();
  }
}
