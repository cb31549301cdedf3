/** A call that no other call interrupts: its events, run one after the other, do to the caller's table
    and to Redis exactly what the contract of the BondManager method of that name says. */
module BondSequential {
  import opened Wrappers
  import opened TtlStore
  import opened BondTable
  import opened Bond
  import opened BondProtocol

  lemma ExecOne(s: System, e: Event)
    ensures Exec(s, [e]) == Apply(s, e)
  {
    assert [e][..0] == [];
  }

  lemma ExecThree(s: System, a: Event, b: Event, c: Event)
    ensures Exec(s, [a, b, c]) == Apply(Apply(Apply(s, a), b), c)
  {
    ExecOne(s, a);
    assert [a, b][..1] == [a] && [a, b, c][..2] == [a, b];
  }

  // The steps after the first, with the clock moving in between.
  lemma ExecFive(s: System, a: Event, d: nat, b: Event, e: nat, c: Event)
    ensures Exec(s, [a, Tick(d), b, Tick(e), c]) ==
      Apply(Apply(Apply(Apply(Apply(s, a), Tick(d)), b), Tick(e)), c)
  {
    ExecThree(s, a, Tick(d), b);
    assert [a, Tick(d), b, Tick(e)][..3] == [a, Tick(d), b];
    assert [a, Tick(d), b, Tick(e), c][..4] == [a, Tick(d), b, Tick(e)];
  }

  // What is left of an acquire once its command was sent.
  lemma AcquireSent(s: System, c: CallId, ttl: Duration, fate: Fate)
    requires At(s, c) == Some(Setting(ttl))
    ensures var call, t, value := s.calls[c], Apply(s, SendSetNX(c, fate)), |s.makers|;
      && t.redis == (if fate.NeverArrived? then s.redis else SetNX(s.redis, s.now, call.key, value, ttl))
      && t.tables == s.tables && t.now == s.now && t.entryCount == s.entryCount && t.makers == s.makers + [call.instance]
      && (if fate.Answered? && !Live(s.redis, s.now, call.key)
          then c in t.calls && t.calls[c] == Call(call.instance, call.key, Inserting(value, ttl))
          else c in t.calls ==> t.calls[c].phase.Deleting?)
  {
  }

  // What is left of an extend once its command was sent.
  lemma ExtendSent(s: System, c: CallId, ref: EntryId, value: LockValue, ttl: Duration, fate: Fate)
    requires At(s, c) == Some(Touching(ref, value, ttl))
    ensures var call, t := s.calls[c], Apply(s, SendTouch(c, fate));
      && t.redis == (if fate.NeverArrived? then s.redis else ExpireIf(s.redis, s.now, call.key, value, ttl))
      && t.tables == s.tables && t.now == s.now
      && (if fate.Answered? && Get(s.redis, s.now, call.key) == Some(value)
          then c in t.calls && t.calls[c] == Call(call.instance, call.key, Confirming(ref, value, ttl))
          else c !in t.calls)
  {
  }

  lemma OverwriteTwice<K, V>(m: map<K, V>, k: K, a: V, b: V)
    ensures m[k := a][k := b] == m[k := b]
  {
  }

  lemma InsertedAs(s: System, c: CallId, i: Instance, key: string)
    requires c in s.calls && s.calls[c].phase.Inserting? ==> s.calls[c].instance == i && s.calls[c].key == key
    ensures var t := Apply(s, InsertEntry(c));
      && t.redis == s.redis && t.makers == s.makers
      && t.tables == (if c in s.calls && s.calls[c].phase.Inserting?
           then s.tables[i := Insert(TableOf(s.tables, i), key, s.entryCount, s.calls[c].phase.value, s.now + s.calls[c].phase.ttl)]
           else s.tables)
  {
  }

  lemma AcquireAlone(s: System, c: CallId, i: Instance, key: string, ttl: Duration, fate: Fate, d: nat, e: nat)
    requires c !in s.calls
    ensures var t := Exec(s, [StartAcquire(c, i, key, ttl), Tick(d), SendSetNX(c, fate), Tick(e), InsertEntry(c)]);
      var sentAt, insertAt, value := s.now + d, s.now + d + e, |s.makers|;
      var reaped := Reap(TableOf(s.tables, i), s.now);
      && t.redis == (if fate.NeverArrived? then s.redis else SetNX(s.redis, sentAt, key, value, ttl))
      && t.tables == s.tables[i :=
           if fate.Answered? && !Live(s.redis, sentAt, key)
           then Insert(reaped, key, s.entryCount, value, insertAt + ttl) else reaped]
      && t.makers == s.makers + [i]
  {
    ExecFive(s, StartAcquire(c, i, key, ttl), d, SendSetNX(c, fate), e, InsertEntry(c));
    var s1 := Apply(Apply(s, StartAcquire(c, i, key, ttl)), Tick(d));
    assert s1.calls[c] == Call(i, key, Setting(ttl));
    AcquireSent(s1, c, ttl, fate);
    var s2 := Apply(Apply(s1, SendSetNX(c, fate)), Tick(e));
    InsertedAs(s2, c, i, key);
    var reaped := Reap(TableOf(s.tables, i), s.now);
    assert s1.tables == s.tables[i := reaped];
    OverwriteTwice(s.tables, i, reaped, Insert(reaped, key, s.entryCount, |s.makers|, s.now + d + e + ttl));
  }

  lemma ReleaseAlone(s: System, c: CallId, i: Instance, key: string, fate: Fate, d: nat)
    requires c !in s.calls
    ensures var t := Exec(s, [StartRelease(c, i, key), Tick(d), SendDelete(c, fate)]);
      var table := TableOf(s.tables, i);
      && TableOf(t.tables, i) == Claim(table, key)
      && t.redis == (if key in table && !fate.NeverArrived?
                     then DelIf(s.redis, s.now + d, key, table[key].value) else s.redis)
      && t.calls == s.calls
  {
    ExecThree(s, StartRelease(c, i, key), Tick(d), SendDelete(c, fate));
    var table := TableOf(s.tables, i);
    if key in table {
      var s1 := Apply(Apply(s, StartRelease(c, i, key)), Tick(d));
      var call := Call(i, key, Deleting(table[key].value));
      assert s1.calls == s.calls[c := call] && TableOf(s1.tables, i) == Claim(table, key);
      assert s.calls[c := call] - {c} == s.calls;
    } else {
      assert Claim(table, key) == table;
    }
  }

  lemma ConfirmedAs(s: System, c: CallId, i: Instance, key: string)
    requires c in s.calls ==> s.calls[c].phase.Confirming? && s.calls[c].instance == i && s.calls[c].key == key
    ensures var t := Apply(s, ConfirmEntry(c));
      && t.redis == s.redis
      && TableOf(t.tables, i) == (if c in s.calls
           then Confirm(TableOf(s.tables, i), key, s.calls[c].phase.ref, s.calls[c].phase.value, s.now + s.calls[c].phase.ttl)
           else TableOf(s.tables, i))
  {
  }

  lemma ExtendAlone(s: System, c: CallId, i: Instance, key: string, ttl: Duration, fate: Fate, d: nat, e: nat)
    requires c !in s.calls
    ensures var t := Exec(s, [StartExtend(c, i, key, ttl), Tick(d), SendTouch(c, fate), Tick(e), ConfirmEntry(c)]);
      var table, sentAt, confirmAt := TableOf(s.tables, i), s.now + d, s.now + d + e;
      && t.redis == (if key in table && !fate.NeverArrived?
                     then ExpireIf(s.redis, sentAt, key, table[key].value, ttl) else s.redis)
      && TableOf(t.tables, i) ==
           (if key in table && fate.Answered? && Get(s.redis, sentAt, key) == Some(table[key].value)
            then Confirm(table, key, table[key].ref, table[key].value, confirmAt + ttl) else table)
  {
    ExecFive(s, StartExtend(c, i, key, ttl), d, SendTouch(c, fate), e, ConfirmEntry(c));
    var table := TableOf(s.tables, i);
    if key in table {
      var slot := table[key];
      var s1 := Apply(Apply(s, StartExtend(c, i, key, ttl)), Tick(d));
      assert s1.calls[c] == Call(i, key, Touching(slot.ref, slot.value, ttl));
      ExtendSent(s1, c, slot.ref, slot.value, ttl, fate);
      var s2 := Apply(Apply(s1, SendTouch(c, fate)), Tick(e));
      ConfirmedAs(s2, c, i, key);
    }
  }
}
