/**
 * The toast notification manager of script.js: a single container holding
 * the displayed toasts in creation order, showToast appending one toast and
 * scheduling its automatic removal, and the two-phase removeToast (mark the
 * toast `hiding`, then detach it 300 ms later if it is still attached).
 *
 * Time is modelled as an order of events: every setTimeout call appends a
 * Timer to `pending`, and any pending timer may be the next one to fire.
 */
module Toasts {
  import opened Wrappers

  /** The SVG icon chosen by showToast's if-chain; the markup itself is abstracted away. */
  datatype Icon = CheckIcon | CrossIcon | InfoIcon | NoIcon

  /** The toast types that have an icon of their own. */
  const KnownKinds: set<string> := {"success", "error", "info"}

  /** Transition window between marking a toast `hiding` and detaching it. */
  const HideTransitionMs := 300

  /** Icon selection: total over all type strings; unknown types get no icon. */
  function IconFor(kind: string): (icon: Icon)
    ensures icon == NoIcon <==> kind !in KnownKinds
    ensures kind == "success" ==> icon == CheckIcon
    ensures kind == "error" ==> icon == CrossIcon
    ensures kind == "info" ==> icon == InfoIcon
  {
    if kind == "success" then CheckIcon
    else if kind == "error" then CrossIcon
    else if kind == "info" then InfoIcon
    else NoIcon
  }

  /** The three known types are told apart by their icons. */
  lemma IconsDistinct(a: string, b: string)
    requires a in KnownKinds && b in KnownKinds && a != b
    ensures IconFor(a) != IconFor(b)
  {
  }

  /** What a toast displays: its type (also its CSS class), icon, optional title block and message. */
  datatype ToastContent = ToastContent(kind: string, icon: Icon, titleBlock: Option<string>, message: string)

  /** The content showToast renders into the toast element. */
  function Render(message: string, title: string, kind: string): (c: ToastContent)
    ensures c.kind == kind && c.message == message
    ensures c.icon == IconFor(kind)
    ensures c.titleBlock.Some? <==> title != ""
    ensures c.titleBlock.Some? ==> c.titleBlock.value == title
  {
    ToastContent(kind, IconFor(kind), if title == "" then None else Some(title), message)
  }

  /** The class attribute showToast gives a toast of type `kind`. */
  function ClassName(kind: string): string {
    "toast " + kind
  }

  /** The separators of a class attribute: ASCII whitespace. */
  predicate IsClassSpace(c: char) {
    c == ' ' || c == '\t' || c == '\n' || c == '\U{C}' || c == '\r'
  }

  /** `token` is a whole class token of `classes`, starting at index `i`. */
  predicate TokenAt(classes: string, token: string, i: nat) {
    i + |token| <= |classes| && classes[i..i + |token|] == token
    && (i == 0 || IsClassSpace(classes[i - 1]))
    && (i + |token| == |classes| || IsClassSpace(classes[i + |token|]))
  }

  /** The class list of `classes` contains `token`. */
  predicate HasClassToken(classes: string, token: string) {
    exists i: nat :: i <= |classes| && TokenAt(classes, token, i)
  }

  /** A new toast of type `kind` carries the `hiding` class from the start. */
  predicate StartsHidden(kind: string) {
    HasClassToken(ClassName(kind), "hiding")
  }

  /** A class attribute without the letter `h` has no `hiding` token. */
  lemma NoHidingToken(classes: string)
    requires forall k :: 0 <= k < |classes| ==> classes[k] != 'h'
    ensures !HasClassToken(classes, "hiding")
  {
    forall i: nat | i <= |classes| ensures !TokenAt(classes, "hiding", i) {
      if i + 6 <= |classes| {
        assert classes[i..i + 6][0] == classes[i];
      }
    }
  }

  /** A type without the letter `h` gives a toast that starts visible. */
  lemma NoLetterHStartsVisible(kind: string)
    requires forall k :: 0 <= k < |kind| ==> kind[k] != 'h'
    ensures !StartsHidden(kind)
  {
    var classes := ClassName(kind);
    forall k | 0 <= k < |classes| ensures classes[k] != 'h' {
      if k >= 6 {
        assert classes[k] == kind[k - 6];
      }
    }
    NoHidingToken(classes);
  }

  /** Toasts of the three known types start visible. */
  lemma KnownKindsStartVisible(kind: string)
    requires kind in KnownKinds
    ensures !StartsHidden(kind)
  {
  }

  /** A type naming the `hiding` class yields a toast that is hidden from the start. */
  lemma HidingKindStartsHidden()
    ensures StartsHidden("hiding")
  {
    assert TokenAt(ClassName("hiding"), "hiding", 6);
  }

  /** One toast element; `hiding` is the presence of the `hiding` CSS class. */
  class Toast {
    const content: ToastContent
    var hiding: bool

    constructor (content: ToastContent)
      ensures this.content == content
      ensures hiding == StartsHidden(content.kind)
    {
      this.content := content;
      hiding := StartsHidden(content.kind);
    }
  }

  /**
   * A callback registered with setTimeout: the automatic removal showToast
   * schedules after `delay` ms, or the detach step removeToast schedules
   * after `delay` ms as well (always HideTransitionMs).
   */
  datatype Timer = AutoRemove(toast: Toast, delay: int) | Detach(toast: Toast, delay: int)

  predicate Distinct<T(==)>(s: seq<T>) {
    forall i, j :: 0 <= i < j < |s| ==> s[i] != s[j]
  }

  /** `s` with its first occurrence of `x` taken out (removeChild). */
  function Without<T(==)>(s: seq<T>, x: T): (r: seq<T>)
    ensures multiset(r) == multiset(s) - multiset{x}
    ensures |r| == if x in s then |s| - 1 else |s|
  {
    if s == [] then []
    else if s[0] == x then
      assert s == [s[0]] + s[1..];
      s[1..]
    else
      assert s == [s[0]] + s[1..];
      [s[0]] + Without(s[1..], x)
  }

  /** The detach callback's effect on the child list: remove `x` only if it is still attached. */
  function Detached<T(==)>(s: seq<T>, x: T): (r: seq<T>)
    ensures x !in s ==> r == s
    ensures multiset(r) == multiset(s) - multiset{x}
  {
    if x in s then Without(s, x) else s
  }

  /** The tail of a duplicate-free list is duplicate-free and lacks the head. */
  lemma DistinctTail<T>(s: seq<T>)
    requires Distinct(s) && s != []
    ensures Distinct(s[1..]) && s[0] !in s[1..]
  {
    var t := s[1..];
    forall i, j | 0 <= i < j < |t| ensures t[i] != t[j] {
      assert t[i] == s[i + 1] && t[j] == s[j + 1];
    }
    forall k | 0 <= k < |t| ensures t[k] != s[0] {
      assert t[k] == s[k + 1];
    }
  }

  /** Putting a new element in front of a duplicate-free list keeps it duplicate-free. */
  lemma DistinctCons<T>(y: T, w: seq<T>)
    requires Distinct(w) && y !in w
    ensures Distinct([y] + w)
  {
    var r := [y] + w;
    forall i, j | 0 <= i < j < |r| ensures r[i] != r[j] {
      assert r[j] == w[j - 1];
      if i > 0 {
        assert r[i] == w[i - 1];
      }
    }
  }

  /** One unfolding of Without when the head is kept. */
  lemma WithoutCons<T>(s: seq<T>, x: T)
    requires s != [] && s[0] != x
    ensures Without(s, x) == [s[0]] + Without(s[1..], x)
  {
  }

  /** Removal adds nothing: what was absent stays absent. */
  lemma {:induction false} WithoutOmits<T>(s: seq<T>, x: T, y: T)
    requires y !in s
    ensures y !in Without(s, x)
  {
    if s != [] && s[0] != x {
      WithoutCons(s, x);
      assert y !in s[1..] by {
        assert forall k :: 0 <= k < |s[1..]| ==> s[1..][k] == s[k + 1];
      }
      WithoutOmits(s[1..], x, y);
    }
  }

  /** Cutting position `i` out of `s` is cutting `i - 1` out of its tail, behind the head. */
  lemma CutCons<T>(s: seq<T>, i: nat)
    requires 0 < i < |s|
    ensures s[..i] + s[i + 1..] == [s[0]] + (s[1..][..i - 1] + s[1..][i..])
  {
    assert s[1..][..i - 1] == s[1..i];
    assert s[1..][i..] == s[i + 1..];
    assert s[..i] == [s[0]] + s[1..i];
  }

  /** What is absent from a prefix is absent from the same prefix of the tail. */
  lemma AbsentFromTailPrefix<T>(s: seq<T>, i: nat, x: T)
    requires 0 < i <= |s| && x !in s[..i]
    ensures x !in s[1..][..i - 1]
  {
    var front, tailFront := s[..i], s[1..][..i - 1];
    forall k | 0 <= k < |tailFront| ensures tailFront[k] != x {
      assert tailFront[k] == front[k + 1];
    }
  }

  /** Detaching takes out exactly the one element and keeps all others in their order. */
  lemma {:induction false} WithoutAt<T>(s: seq<T>, i: nat)
    requires i < |s| && s[i] !in s[..i]
    ensures Without(s, s[i]) == s[..i] + s[i + 1..]
  {
    if i > 0 {
      var x := s[i];
      assert s[..i][0] == s[0];
      WithoutCons(s, x);
      AbsentFromTailPrefix(s, i, x);
      assert s[1..][i - 1] == x;
      WithoutAt(s[1..], i - 1);
      CutCons(s, i);
    }
  }

  /** In a duplicate-free list the removed element is gone afterwards. */
  lemma {:induction false} WithoutRemoves<T>(s: seq<T>, x: T)
    requires Distinct(s)
    ensures x !in Without(s, x)
  {
    if s != [] {
      DistinctTail(s);
      if s[0] != x {
        WithoutCons(s, x);
        WithoutRemoves(s[1..], x);
      }
    }
  }

  /** Detaching keeps the child list duplicate-free. */
  lemma {:induction false} WithoutDistinct<T>(s: seq<T>, x: T)
    requires Distinct(s)
    ensures Distinct(Without(s, x))
  {
    if s != [] {
      DistinctTail(s);
      if s[0] != x {
        var t := s[1..];
        WithoutCons(s, x);
        WithoutDistinct(t, x);
        WithoutOmits(t, x, s[0]);
        DistinctCons(s[0], Without(t, x));
      }
    }
  }

  /** What the container invariant needs from a detach: no duplicates, `x` gone, nothing new. */
  lemma DetachedFacts<T>(s: seq<T>, x: T)
    requires Distinct(s)
    ensures Distinct(Detached(s, x)) && x !in Detached(s, x)
    ensures forall y :: y in Detached(s, x) ==> y in s
  {
    if x in s {
      WithoutDistinct(s, x);
      WithoutRemoves(s, x);
      forall y | y in Without(s, x) ensures y in s {
        assert y in multiset(Without(s, x));
      }
    }
  }

  /** Detaching an element that is not attached leaves the list as it is. */
  lemma DetachedAbsent<T>(s: seq<T>, x: T)
    requires x !in s
    ensures Detached(s, x) == s
  {
  }

  /** Removal is idempotent: a second detach of the same toast is a no-op. */
  lemma DetachedTwice<T>(s: seq<T>, x: T)
    requires Distinct(s)
    ensures Detached(Detached(s, x), x) == Detached(s, x)
  {
    if x in s {
      WithoutRemoves(s, x);
    }
  }

  /** Detaching removes exactly one occurrence of `x`, at its position, and nothing else. */
  lemma DetachedExact<T>(s: seq<T>, x: T)
    requires Distinct(s) && x in s
    ensures x !in Detached(s, x)
    ensures exists i :: 0 <= i < |s| && s[i] == x && Detached(s, x) == s[..i] + s[i + 1..]
  {
    WithoutRemoves(s, x);
    var i :| 0 <= i < |s| && s[i] == x;
    assert s[i] !in s[..i];
    WithoutAt(s, i);
  }

  /** The pending-timer list with the timer at index `i` taken out (it has fired). */
  function RemoveAt<T>(p: seq<T>, i: nat): (r: seq<T>)
    requires i < |p|
    ensures multiset(r) == multiset(p) - multiset{p[i]}
  {
    assert p == p[..i] + [p[i]] + p[i + 1..];
    p[..i] + p[i + 1..]
  }

  /** A timer still pending after another one fired was pending before. */
  lemma RemoveAtWithin<T>(p: seq<T>, i: nat, e: T)
    requires i < |p| && e in RemoveAt(p, i)
    ensures e in p
  {
  }

  /** Firing one timer leaves every other timer pending. */
  lemma RemoveAtKeeps<T>(p: seq<T>, i: nat, e: T)
    requires i < |p| && e in p && e != p[i]
    ensures e in RemoveAt(p, i)
  {
  }

  /** Number of timer callbacks an event still sets off: an auto-removal fires and then schedules a detach. */
  function Cost(e: Timer): nat {
    if e.AutoRemove? then 2 else 1
  }

  /** Callbacks still to run before every pending timer has fired, if nothing new is scheduled. */
  ghost function Weight(p: seq<Timer>): nat {
    if p == [] then 0 else Cost(p[0]) + Weight(p[1..])
  }

  lemma {:induction false} WeightConcat(a: seq<Timer>, b: seq<Timer>)
    ensures Weight(a + b) == Weight(a) + Weight(b)
  {
    if a == [] {
      assert a + b == b;
    } else {
      assert (a + b)[1..] == a[1..] + b;
      WeightConcat(a[1..], b);
    }
  }

  /** Firing one timer takes its cost off the weight. */
  lemma {:induction false} WeightRemoveAt(p: seq<Timer>, i: nat)
    requires i < |p|
    ensures Weight(RemoveAt(p, i)) + Cost(p[i]) == Weight(p)
  {
    if i == 0 {
      assert RemoveAt(p, 0) == p[1..];
    } else {
      WeightRemoveAt(p[1..], i - 1);
      var rest := RemoveAt(p[1..], i - 1);
      CutCons(p, i);
      assert RemoveAt(p, i) == [p[0]] + rest;
      assert ([p[0]] + rest)[1..] == rest;
    }
  }

  lemma WeightAppend(p: seq<Timer>, e: Timer)
    ensures Weight(p + [e]) == Weight(p) + Cost(e)
  {
    WeightConcat(p, [e]);
  }

  /** The toast container (initToastContainer) together with the timers armed against its toasts. */
  class ToastContainer {
    /** The container's child list, in display order. */
    var toasts: seq<Toast>
    /** Timers registered and not yet fired, in registration order. */
    var pending: seq<Timer>
    /** Every toast ever shown through this container. */
    ghost var created: set<Toast>

    /** A timer is still armed that will lead to `t` being detached. */
    ghost predicate Scheduled(t: Toast)
      reads this
    {
      exists e :: e in pending && e.toast == t
    }

    ghost predicate Valid()
      reads this, created
    {
      Distinct(toasts)
      && (forall t :: t in toasts ==> t in created)
      && (forall e :: e in pending ==> e.toast in created && (e.Detach? ==> e.toast.hiding))
      && (forall t :: t in toasts ==> Scheduled(t))
    }

    /** initToastContainer: an empty container, no timers. */
    constructor ()
      ensures Valid() && toasts == [] && pending == [] && created == {}
    {
      toasts := [];
      pending := [];
      created := {};
    }

    /**
     * showToast: append one new toast at the end of the container and
     * arm its automatic removal after `duration`.
     */
    method ShowToast(message: string, title: string := "", kind: string := "success", duration: int := 5000)
      returns (t: Toast)
      requires Valid()
      modifies this
      ensures Valid() && fresh(t) && created == old(created) + {t}
      ensures toasts == old(toasts) + [t]
      ensures t.content == Render(message, title, kind) && t.hiding == StartsHidden(kind)
      ensures pending == old(pending) + [AutoRemove(t, duration)]
    {
      t := new Toast(Render(message, title, kind));
      toasts := toasts + [t];
      created := created + {t};
      pending := pending + [AutoRemove(t, duration)];
      forall u | u in toasts ensures Scheduled(u) {
        if u == t {
          assert pending[|pending| - 1] == AutoRemove(t, duration);
        } else {
          assert old(Scheduled(u));
          var e :| e in old(pending) && e.toast == u;
          assert e in pending;
        }
      }
    }

    /**
     * removeToast, first phase: add the `hiding` class and arm the detach
     * step. The child list itself does not change.
     */
    method RemoveToast(t: Toast)
      requires Valid() && t in created
      modifies this, t
      ensures Valid() && created == old(created)
      ensures t.hiding && toasts == old(toasts)
      ensures pending == old(pending) + [Detach(t, HideTransitionMs)]
    {
      t.hiding := true;
      pending := pending + [Detach(t, HideTransitionMs)];
      forall u | u in toasts ensures Scheduled(u) {
        assert old(Scheduled(u));
        var e :| e in old(pending) && e.toast == u;
        assert e in pending;
      }
    }

    /**
     * The timer at index `i` fires. An automatic removal calls removeToast;
     * a detach step takes the toast out only if it is still attached.
     */
    method Fire(i: nat)
      requires Valid() && i < |pending|
      modifies this, pending[i].toast
      ensures Valid() && created == old(created)
      ensures match old(pending[i])
        case AutoRemove(t, _) =>
          t.hiding && toasts == old(toasts)
          && pending == RemoveAt(old(pending), i) + [Detach(t, HideTransitionMs)]
        case Detach(t, _) =>
          t.hiding && toasts == Detached(old(toasts), t)
          && pending == RemoveAt(old(pending), i)
    {
      if pending[i].AutoRemove? {
        FireAutoRemove(i);
      } else {
        FireDetach(i);
      }
    }

    /** The automatic-removal timer at index `i` fires and calls removeToast. */
    method FireAutoRemove(i: nat)
      requires Valid() && i < |pending| && pending[i].AutoRemove?
      modifies this, pending[i].toast
      ensures Valid() && created == old(created)
      ensures old(pending[i].toast).hiding && toasts == old(toasts)
      ensures pending == RemoveAt(old(pending), i) + [Detach(old(pending[i].toast), HideTransitionMs)]
    {
      var e := pending[i];
      var t := e.toast;
      RemoveToast(t);
      assert RemoveAt(pending, i) == RemoveAt(old(pending), i) + [Detach(t, HideTransitionMs)];
      pending := RemoveAt(pending, i);
      forall u | u in toasts ensures Scheduled(u) {
        if u == t {
          assert Detach(t, HideTransitionMs) in pending;
        } else {
          var w :| w in old(pending) && w.toast == u;
          RemoveAtKeeps(old(pending), i, w);
        }
      }
    }

    /** The detach timer at index `i` fires: the toast leaves the container if still attached. */
    method FireDetach(i: nat)
      requires Valid() && i < |pending| && pending[i].Detach?
      modifies this
      ensures Valid() && created == old(created)
      ensures old(pending[i].toast).hiding
      ensures toasts == Detached(old(toasts), old(pending[i].toast))
      ensures pending == RemoveAt(old(pending), i)
    {
      var e := pending[i];
      var t := e.toast;
      DetachedFacts(toasts, t);
      if t in toasts {
        toasts := Without(toasts, t);
      }
      pending := RemoveAt(pending, i);
      forall w | w in pending ensures w in old(pending) {
        RemoveAtWithin(old(pending), i, w);
      }
      forall u | u in toasts ensures Scheduled(u) {
        var w :| w in old(pending) && w.toast == u;
        RemoveAtKeeps(old(pending), i, w);
      }
    }

    /**
     * The browser's event loop running the armed timers, in any order,
     * until none is left: every toast ends up detached.
     */
    method RunTimers()
      requires Valid()
      modifies this, created
      ensures Valid() && created == old(created)
      ensures pending == [] && toasts == []
    {
      while pending != []
        invariant Valid() && created == old(created)
        decreases Weight(pending)
      {
        var i :| 0 <= i < |pending|;
        ghost var before := pending;
        Fire(i);
        WeightRemoveAt(before, i);
        if before[i].AutoRemove? {
          WeightAppend(RemoveAt(before, i), Detach(before[i].toast, HideTransitionMs));
        }
      }
      assert toasts != [] ==> Scheduled(toasts[0]);
    }
  }

  /**
   * Between two states, the container `c` gained exactly one toast at its
   * end, showing `Render(message, title, kind)`, hiding only if its type names the `hiding` class, with its
   * automatic removal armed after `duration`.
   */
  twostate predicate Shown(c: ToastContainer, message: string, title: string, kind: string, duration: int)
    reads c, c.toasts
  {
    |c.toasts| == |old(c.toasts)| + 1
    && c.toasts[..|old(c.toasts)|] == old(c.toasts)
    && var t := c.toasts[|c.toasts| - 1];
    t.content == Render(message, title, kind) && t.hiding == StartsHidden(kind)
    && c.pending == old(c.pending) + [AutoRemove(t, duration)]
  }
}
