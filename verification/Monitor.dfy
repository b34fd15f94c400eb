/** Condition variables as sets of threads: those asleep on the condition, and those woken that have
    not yet got the mutex back. */
module Monitor {
  type Thread = nat

  /** `pthread_cond_signal` unblocks at least one sleeper if there is any. */
  ghost predicate Signalled(asleep: set<Thread>, woken: set<Thread>, asleep': set<Thread>, woken': set<Thread>) {
    && asleep' <= asleep
    && woken' == woken + (asleep - asleep')
    && (asleep != {} ==> asleep' != asleep)
  }

  /** A signal moves sleepers to the woken side and, if there was one, moves at least one. */
  lemma SignalCounts(asleep: set<Thread>, woken: set<Thread>, asleep': set<Thread>, woken': set<Thread>)
    requires Signalled(asleep, woken, asleep', woken') && asleep !! woken
    ensures asleep' !! woken' && asleep' + woken' == asleep + woken
    ensures |woken'| == |woken| + |asleep| - |asleep'|
    ensures asleep != {} ==> |woken'| >= |woken| + 1
  {
    var moved := asleep - asleep';
    assert |asleep| == |moved| + |asleep'| by {
      assert asleep == moved + asleep';
    }
    assert |woken + moved| == |woken| + |moved|;
    if asleep != {} {
      assert moved != {};
    }
  }

  /** A spurious wakeup of one sleeper. */
  lemma WokenOne(asleep: set<Thread>, woken: set<Thread>, t: Thread)
    requires asleep !! woken && t in asleep
    ensures asleep - {t} !! woken + {t} && (asleep - {t}) + (woken + {t}) == asleep + woken
    ensures |woken + {t}| == |woken| + 1
  {
  }

  ghost function SomeKey(m: map<Thread, int>): (t: Thread)
    requires m != map[]
    ensures t in m
  {
    var t :| t in m;
    t
  }

  /** What all the threads of a map bring with them. */
  ghost function Values(m: map<Thread, int>): multiset<int>
    decreases |m|
  {
    if m == map[] then multiset{} else var t := SomeKey(m); multiset{m[t]} + Values(m - {t})
  }

  lemma {:induction false} ValuesWithout(m: map<Thread, int>, t: Thread)
    requires t in m
    ensures Values(m) == multiset{m[t]} + Values(m - {t})
    decreases |m|
  {
    var u := SomeKey(m);
    if u != t {
      calc {
        Values(m);
        multiset{m[u]} + Values(m - {u});
        { ValuesWithout(m - {u}, t); assert (m - {u})[t] == m[t]; }
        multiset{m[u]} + (multiset{m[t]} + Values(m - {u} - {t}));
        { assert m - {u} - {t} == m - {t} - {u}; }
        multiset{m[t]} + (multiset{m[u]} + Values(m - {t} - {u}));
        { ValuesWithout(m - {t}, u); assert (m - {t})[u] == m[u]; }
        multiset{m[t]} + Values(m - {t});
      }
    }
  }

  lemma ValuesWith(m: map<Thread, int>, t: Thread, x: int)
    requires t !in m
    ensures Values(m[t := x]) == multiset{x} + Values(m)
  {
    ValuesWithout(m[t := x], t);
    assert m[t := x] - {t} == m;
  }
}
