/**
 * The toast context: a list of toasts in display order, where adding a
 * toast first drops every toast with the same message, so that each
 * message is shown at most once.
 */
module Toasts {

  datatype Variant = Error | Notification

  datatype Toast = Toast(id: string, message: string, variant: Variant)

  /** prev.filter(toast => toast.message !== m). */
  function WithoutMessage(ts: seq<Toast>, m: string): (r: seq<Toast>)
    ensures forall k :: 0 <= k < |r| ==> r[k].message != m
    ensures forall k :: 0 <= k < |r| ==> r[k] in ts
    ensures forall t: Toast :: t.message != m ==> multiset(r)[t] == multiset(ts)[t]
  {
    if |ts| == 0 then []
    else
      var rest := WithoutMessage(ts[1..], m);
      FilterStep(ts, rest, m);
      if ts[0].message == m then rest else [ts[0]] + rest
  }

  /** One step of the filter: the tail's filtered list, with or without the head, keeps the counts of other messages. */
  lemma FilterStep(ts: seq<Toast>, rest: seq<Toast>, m: string)
    requires |ts| > 0
    requires forall k :: 0 <= k < |rest| ==> rest[k] in ts[1..]
    requires forall t: Toast :: t.message != m ==> multiset(rest)[t] == multiset(ts[1..])[t]
    ensures forall k :: 0 <= k < |rest| ==> rest[k] in ts
    ensures forall k :: 0 <= k < |[ts[0]] + rest| ==> ([ts[0]] + rest)[k] in ts
    ensures ts[0].message == m ==> forall t: Toast :: t.message != m ==> multiset(rest)[t] == multiset(ts)[t]
    ensures forall t: Toast :: t.message != m ==> multiset([ts[0]] + rest)[t] == multiset(ts)[t]
  {
    assert ts == [ts[0]] + ts[1..];
  }

  /** prev.filter(toast => toast.id !== id). */
  function WithoutId(ts: seq<Toast>, id: string): (r: seq<Toast>)
    ensures forall k :: 0 <= k < |r| ==> r[k].id != id
    ensures forall t: Toast :: t.id != id ==> multiset(r)[t] == multiset(ts)[t]
  {
    if |ts| == 0 then []
    else
      assert ts == [ts[0]] + ts[1..];
      if ts[0].id == id then WithoutId(ts[1..], id) else [ts[0]] + WithoutId(ts[1..], id)
  }

  /** The number of toasts showing message m. */
  function CountMessage(ts: seq<Toast>, m: string): nat
  {
    if |ts| == 0 then 0 else (if ts[0].message == m then 1 else 0) + CountMessage(ts[1..], m)
  }

  /** The list addToast leaves: other messages kept in order, then the new toast. */
  function Added(ts: seq<Toast>, t: Toast): seq<Toast>
  {
    WithoutMessage(ts, t.message) + [t]
  }

  predicate OnePerMessage(ts: seq<Toast>)
  {
    forall i, j :: 0 <= i < j < |ts| ==> ts[i].message != ts[j].message
  }

  lemma {:induction false} CountAppend(a: seq<Toast>, b: seq<Toast>, m: string)
    ensures CountMessage(a + b, m) == CountMessage(a, m) + CountMessage(b, m)
  {
    if |a| > 0 {
      assert (a + b)[0] == a[0];
      assert (a + b)[1..] == a[1..] + b;
      CountAppend(a[1..], b, m);
    } else {
      assert a + b == b;
    }
  }

  lemma {:induction false} CountNone(ts: seq<Toast>, m: string)
    requires forall k :: 0 <= k < |ts| ==> ts[k].message != m
    ensures CountMessage(ts, m) == 0
  {
    if |ts| > 0 {
      CountNone(ts[1..], m);
    }
  }

  lemma {:induction false} WithoutMessageAppend(a: seq<Toast>, b: seq<Toast>, m: string)
    ensures WithoutMessage(a + b, m) == WithoutMessage(a, m) + WithoutMessage(b, m)
  {
    if |a| > 0 {
      var ab := a + b;
      assert ab[0] == a[0];
      assert ab[1..] == a[1..] + b;
      WithoutMessageAppend(a[1..], b, m);
      var rest := WithoutMessage(a[1..], m) + WithoutMessage(b, m);
      if a[0].message == m {
        assert WithoutMessage(ab, m) == rest;
        assert WithoutMessage(a, m) == WithoutMessage(a[1..], m);
      } else {
        assert WithoutMessage(ab, m) == [a[0]] + rest;
        assert WithoutMessage(a, m) == [a[0]] + WithoutMessage(a[1..], m);
        ConsAppend(a[0], WithoutMessage(a[1..], m), WithoutMessage(b, m));
      }
    } else {
      assert a + b == b;
    }
  }

  lemma ConsAppend(x: Toast, p: seq<Toast>, q: seq<Toast>)
    ensures [x] + (p + q) == ([x] + p) + q
  {
  }

  lemma {:induction false} WithoutMessageTwice(ts: seq<Toast>, m: string)
    ensures WithoutMessage(WithoutMessage(ts, m), m) == WithoutMessage(ts, m)
  {
    if |ts| > 0 {
      WithoutMessageTwice(ts[1..], m);
    }
  }

  /**
   * After addToast(m, v) exactly one toast shows m: the new one, at the
   * end; filtering m out of the new list gives back the old list's other
   * toasts in their original order.
   */
  lemma AddedShowsMessageOnce(ts: seq<Toast>, t: Toast)
    ensures CountMessage(Added(ts, t), t.message) == 1
    ensures Added(ts, t)[|Added(ts, t)| - 1] == t
    ensures WithoutMessage(Added(ts, t), t.message) == WithoutMessage(ts, t.message)
  {
    var kept := WithoutMessage(ts, t.message);
    CountAppend(kept, [t], t.message);
    CountNone(kept, t.message);
    assert CountMessage([t], t.message) == 1 by {
      assert [t][1..] == [];
    }
    WithoutMessageAppend(kept, [t], t.message);
    WithoutMessageTwice(ts, t.message);
    assert WithoutMessage([t], t.message) == [] by {
      assert [t][1..] == [];
    }
  }

  /** addToast keeps every message on screen at most once. */
  lemma AddedKeepsOnePerMessage(ts: seq<Toast>, t: Toast)
    requires OnePerMessage(ts)
    ensures OnePerMessage(Added(ts, t))
  {
    var kept := WithoutMessage(ts, t.message);
    WithoutMessageKeepsOnePerMessage(ts, t.message);
    forall i, j | 0 <= i < j < |kept + [t]|
      ensures (kept + [t])[i].message != (kept + [t])[j].message
    {
      if j == |kept| {
        assert (kept + [t])[i] == kept[i];
      } else {
        assert (kept + [t])[i] == kept[i] && (kept + [t])[j] == kept[j];
      }
    }
  }

  /** Filtering a one-per-message list by message keeps it one-per-message. */
  lemma {:induction false} WithoutMessageKeepsOnePerMessage(ts: seq<Toast>, m: string)
    requires OnePerMessage(ts)
    ensures OnePerMessage(WithoutMessage(ts, m))
  {
    if |ts| > 0 {
      var tail := ts[1..];
      assert OnePerMessage(tail) by {
        forall a, b | 0 <= a < b < |tail| ensures tail[a].message != tail[b].message {
          assert tail[a] == ts[a + 1] && tail[b] == ts[b + 1];
        }
      }
      WithoutMessageKeepsOnePerMessage(tail, m);
      if ts[0].message != m {
        var rest := WithoutMessage(tail, m);
        forall k | 0 <= k < |rest| ensures rest[k].message != ts[0].message {
          var q :| 0 <= q < |tail| && tail[q] == rest[k];
          assert ts[q + 1] == rest[k];
        }
        ConsOnePerMessage(ts[0], rest);
      }
    }
  }

  lemma ConsOnePerMessage(x: Toast, rest: seq<Toast>)
    requires OnePerMessage(rest)
    requires forall k :: 0 <= k < |rest| ==> rest[k].message != x.message
    ensures OnePerMessage([x] + rest)
  {
    var s := [x] + rest;
    forall i, j | 0 <= i < j < |s| ensures s[i].message != s[j].message {
      assert s[j] == rest[j - 1];
      if i > 0 {
        assert s[i] == rest[i - 1];
      }
    }
  }

  /** removeToast with an id no toast has leaves the list as it was. */
  lemma {:induction false} RemoveUnknownIdKeepsList(ts: seq<Toast>, id: string)
    requires forall k :: 0 <= k < |ts| ==> ts[k].id != id
    ensures WithoutId(ts, id) == ts
  {
    if |ts| > 0 {
      RemoveUnknownIdKeepsList(ts[1..], id);
    }
  }

  /** ToastProvider's toasts state. */
  class ToastProvider {
    var toasts: seq<Toast>

    constructor()
      ensures toasts == []
    {
      toasts := [];
    }

    /** addToast; id stands for the generated time-and-random identifier. */
    method AddToast(message: string, variant: Variant, id: string)
      modifies this
      ensures toasts == Added(old(toasts), Toast(id, message, variant))
      ensures OnePerMessage(old(toasts)) ==> OnePerMessage(toasts)
    {
      toasts := WithoutMessage(toasts, message);
      toasts := toasts + [Toast(id, message, variant)];
      if OnePerMessage(old(toasts)) {
        AddedKeepsOnePerMessage(old(toasts), Toast(id, message, variant));
      }
    }

    /** removeToast: drops exactly the toasts carrying id. */
    method RemoveToast(id: string)
      modifies this
      ensures toasts == WithoutId(old(toasts), id)
    {
      toasts := WithoutId(toasts, id);
    }
  }
}
