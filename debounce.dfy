/** The frame-load debounce of every window, together with the host's queue of
    scheduled timers. Each window's handler keeps one optional timer id (the
    closure variable of its did-frame-finish-load handler); a frame-load event
    cancels that timer and schedules a new one; a timer that fires sends one
    "maybeUrlChanged" notification to its window. Time itself is not
    modelled: a timer firing is an explicit step. */
module Debounce {
  import opened Descriptors

  type HandleId = nat
  type TimerId = nat

  datatype Timers = Timers(
    pendingOf: map<HandleId, Option<TimerId>>,  // the handler's last timer id, per window
    scheduled: map<TimerId, HandleId>,          // the host's not-yet-fired timers
    next: TimerId,                              // the id the host hands out next
    sent: seq<HandleId>)                        // notifications sent so far, in order

  /** Every scheduled timer is the one its window's handler remembers, so a
      window never has two timers scheduled; and a remembered id, fired or
      not, was handed out to that window alone, so clearing it never cancels
      another window's timer. */
  predicate Consistent(s: Timers) {
    && (forall t :: t in s.scheduled ==>
         && t < s.next
         && s.scheduled[t] in s.pendingOf
         && s.pendingOf[s.scheduled[t]] == Some(t))
    && (forall h :: h in s.pendingOf && s.pendingOf[h].Some? ==>
         && s.pendingOf[h].value < s.next
         && (s.pendingOf[h].value in s.scheduled ==> s.scheduled[s.pendingOf[h].value] == h))
  }

  /** The timers scheduled for window `h`. */
  function TimersOf(s: Timers, h: HandleId): set<TimerId> {
    set t | t in s.scheduled && s.scheduled[t] == h
  }

  /** No window ever has more than one pending notification. */
  lemma AtMostOnePending(s: Timers, h: HandleId)
    requires Consistent(s)
    ensures |TimersOf(s, h)| <= 1
    ensures h in s.pendingOf && s.pendingOf[h].Some? ==> TimersOf(s, h) <= {s.pendingOf[h].value}
    ensures h !in s.pendingOf || s.pendingOf[h].None? ==> TimersOf(s, h) == {}
  {
    if h in s.pendingOf && s.pendingOf[h].Some? {
      var only := s.pendingOf[h].value;
      assert TimersOf(s, h) <= {only};
      if only in TimersOf(s, h) {
        assert TimersOf(s, h) == {only};
      } else {
        assert TimersOf(s, h) == {};
      }
    } else {
      assert TimersOf(s, h) == {};
    }
  }

  /** The did-frame-finish-load handler of window `h`: clear the remembered
      timer if there is one, then schedule a fresh one and remember it. */
  function FrameLoaded(s: Timers, h: HandleId): (r: Timers)
    requires h in s.pendingOf
    ensures r.pendingOf.Keys == s.pendingOf.Keys && r.pendingOf[h] == Some(s.next)
    ensures r.next == s.next + 1 && r.sent == s.sent
    ensures s.next in r.scheduled && r.scheduled[s.next] == h
  {
    var kept := if s.pendingOf[h].Some? then s.scheduled - {s.pendingOf[h].value} else s.scheduled;
    Timers(s.pendingOf[h := Some(s.next)], kept[s.next := h], s.next + 1, s.sent)
  }

  /** A frame-load event keeps the timers consistent. */
  lemma FrameLoadedKeepsConsistent(s: Timers, h: HandleId)
    requires Consistent(s) && h in s.pendingOf
    ensures Consistent(FrameLoaded(s, h))
  {
    var r := FrameLoaded(s, h);
    // Every older timer that survives belongs to a window other than h: the
    // only one h could have had is the remembered one, which was cancelled.
    forall t | t in r.scheduled && t != s.next
      ensures t in s.scheduled && r.scheduled[t] == s.scheduled[t] != h
    {
      assert s.pendingOf[s.scheduled[t]] == Some(t);
      assert s.pendingOf[h] != Some(t);
    }
  }

  /** A frame-load event cancels the window's earlier timer and leaves exactly
      the new one; other windows' timers are not affected. */
  lemma FrameLoadedReplaces(s: Timers, h: HandleId)
    requires Consistent(s) && h in s.pendingOf
    ensures TimersOf(FrameLoaded(s, h), h) == {s.next}
    ensures forall g :: g != h ==> TimersOf(FrameLoaded(s, h), g) == TimersOf(s, g)
  {
    var r := FrameLoaded(s, h);
    forall t | t in r.scheduled && t != s.next
      ensures t in s.scheduled && r.scheduled[t] == s.scheduled[t] != h
    {
      assert s.pendingOf[s.scheduled[t]] == Some(t);
      assert s.pendingOf[h] != Some(t);
    }
    assert TimersOf(r, h) == {s.next};
    forall g | g != h ensures TimersOf(r, g) == TimersOf(s, g) {
      forall t ensures t in TimersOf(r, g) <==> t in TimersOf(s, g) {
        if t in TimersOf(s, g) {
          assert t < s.next && s.scheduled[t] == g;
          assert s.pendingOf[h].Some? && s.pendingOf[h].value in s.scheduled ==> s.scheduled[s.pendingOf[h].value] == h;
        }
      }
    }
  }

  /** The host fires timer `t` after the quiet period: the timer is gone and
      its window gets one notification. The handler's remembered id is not
      cleared. */
  function Elapsed(s: Timers, t: TimerId): (r: Timers)
    requires t in s.scheduled
    ensures r.scheduled == s.scheduled - {t} && r.sent == s.sent + [s.scheduled[t]]
    ensures r.pendingOf == s.pendingOf && r.next == s.next
  {
    s.(scheduled := s.scheduled - {t}, sent := s.sent + [s.scheduled[t]])
  }

  lemma ElapsedKeepsConsistent(s: Timers, t: TimerId)
    requires Consistent(s) && t in s.scheduled
    ensures Consistent(Elapsed(s, t))
    ensures TimersOf(Elapsed(s, t), s.scheduled[t]) == {}
  {
    var h := s.scheduled[t];
    var r := Elapsed(s, t);
    forall u | u in r.scheduled ensures r.scheduled[u] != h {
      assert s.pendingOf[s.scheduled[u]] == Some(u);
      assert s.pendingOf[h] == Some(t);
    }
  }

  /** `n` frame-load events of window `h` with no timer firing in between. */
  function Burst(s: Timers, h: HandleId, n: nat): (r: Timers)
    requires h in s.pendingOf
    ensures r.pendingOf.Keys == s.pendingOf.Keys && r.next == s.next + n && r.sent == s.sent
  {
    if n == 0 then s else FrameLoaded(Burst(s, h, n - 1), h)
  }

  /** A burst keeps the timers consistent. */
  lemma {:induction false} BurstKeepsConsistent(s: Timers, h: HandleId, n: nat)
    requires Consistent(s) && h in s.pendingOf
    ensures Consistent(Burst(s, h, n))
  {
    if n > 0 {
      BurstKeepsConsistent(s, h, n - 1);
      FrameLoadedKeepsConsistent(Burst(s, h, n - 1), h);
    }
  }

  /** However long the burst, it leaves exactly one timer for `h`: the one
      scheduled by the last event. */
  lemma BurstLeavesOne(s: Timers, h: HandleId, n: nat)
    requires Consistent(s) && h in s.pendingOf && n >= 1
    ensures TimersOf(Burst(s, h, n), h) == {s.next + n - 1}
  {
    var before := Burst(s, h, n - 1);
    BurstKeepsConsistent(s, h, n - 1);
    FrameLoadedReplaces(before, h);
  }

  /** A burst followed by a quiet period yields exactly one notification for
      `h`, and nothing remains scheduled for it. */
  lemma BurstNotifiesOnce(s: Timers, h: HandleId, n: nat)
    requires Consistent(s) && h in s.pendingOf && n >= 1
    ensures var b := Burst(s, h, n);
      && s.next + n - 1 in b.scheduled
      && Elapsed(b, s.next + n - 1).sent == s.sent + [h]
      && TimersOf(Elapsed(b, s.next + n - 1), h) == {}
  {
    BurstLeavesOne(s, h, n);
    BurstKeepsConsistent(s, h, n);
    var b := Burst(s, h, n);
    assert s.next + n - 1 in TimersOf(b, h);
    ElapsedKeepsConsistent(b, s.next + n - 1);
  }
}
