/**
 * The register cache as the recompiler keeps it: a fixed array of entries updated in place, a running
 * timestamp, and the code emitted so far. Every method is the corresponding operation on values.
 */
module RegisterCaches {
  import opened Words
  import opened Isa
  import opened HostCode
  import opened RegCache

  class RegisterCache {
    const entries: array<Entry>
    const callerSaved: nat
    var timestamp: nat
    var ok: bool               // no assertion has failed
    var code: seq<Op>

    ghost function Value(): Gen
      reads this, entries
    {
      Gen(Cache(entries[..], timestamp, callerSaved, ok), code)
    }

    constructor (registers: nat, callerSaved: nat)
      ensures fresh(entries) && entries.Length == registers && this.callerSaved == callerSaved
      ensures Value() == Gen(Cache(seq(registers, _ => EMPTY), 0, callerSaved, true), [])
    {
      entries := new Entry[registers](_ => EMPTY);
      this.callerSaved := callerSaved;
      timestamp, ok, code := 0, true, [];
      new;
      assert entries[..] == seq(registers, _ => EMPTY);
    }

    // ----- searching -----

    method FindLiveRegister(k: nat) returns (h: nat)
      ensures h == Where(entries[..], k)
    {
      h := 0;
      while h < entries.Length && !Owns(entries[h], k)
        invariant h <= entries.Length && FindLive(entries[..], k, h) == Where(entries[..], k)
      {
        h := h + 1;
      }
    }

    method FindFreeRegister() returns (h: nat)
      ensures h == FindFree(entries[..], 0)
    {
      h := 0;
      while h < entries.Length && entries[h].live
        invariant h <= entries.Length && FindFree(entries[..], h) == FindFree(entries[..], 0)
      {
        h := h + 1;
      }
    }

    method FindOldestUnlocked() returns (best: nat)
      ensures best == Oldest(entries[..], entries.Length)
    {
      best := entries.Length;
      for i := 0 to entries.Length
        invariant best == Oldest(entries[..], i)
      {
        if Evictable(entries[i]) && (best == entries.Length || entries[i].stamp < entries[best].stamp) {
          best := i;
        }
      }
    }

    method FindAnyRegister(k: nat) returns (h: nat)
      ensures h == FindRegister(entries[..], k)
    {
      h := FindLiveRegister(k);
      if h == entries.Length { h := FindFreeRegister(); }
      if h == entries.Length { h := FindOldestUnlocked(); }
    }

    // ----- emission -----

    method Append(op: Op)
      modifies this`code
      ensures Value() == Emit(old(Value()), op)
    {
      code := code + [op];
    }

    method SetAt(h: nat, e: Entry)
      requires h < entries.Length
      modifies entries
      ensures Value() == old(Value()).(cache := SetEntry(old(Value()).cache, h, e))
    {
      entries[h] := e;
      assert entries[..] == old(entries[..])[h := e];
    }

    method StoreBack(h: nat)
      requires h < entries.Length
      modifies this`ok, this`code
      ensures Value() == WriteBack(old(Value()), h, entries[h])
    {
      var e := entries[h];
      if e.mips == 0 { ok := false; }
      if e.mips <= COND { Append(StoreSr(e.mips, h)); }
    }

    /** Give up what h holds and fetch k into it. */
    method Refill(h: nat, k: nat, ext: Ext)
      requires h < entries.Length
      modifies this`ok, this`code
      ensures Value() == Emit(if entries[h].live then Evict(old(Value()), h) else old(Value()), FillOp(h, k, ext))
    {
      if entries[h].live && entries[h].modified { StoreBack(h); }
      Append(FillOp(h, k, ext));
    }

    // ----- operations -----

    /** Install e at h with a new timestamp and one more lock. */
    method Touch(h: nat, e: Entry)
      requires h < entries.Length
      modifies this`timestamp, entries
      ensures var g := old(Value());
              var e' := e.(stamp := g.cache.clock + 1, locks := e.locks + 1);
              Value() == g.(cache := SetEntry(g.cache, h, e').(clock := g.cache.clock + 1))
    {
      timestamp := timestamp + 1;
      SetAt(h, e.(stamp := timestamp, locks := e.locks + 1));
    }

    /** k is cached in h: convert it if its extension is not the wanted one. */
    method LoadHit(h: nat, k: nat, ext: Ext)
      requires h < entries.Length && h == FindRegister(entries[..], k) && Owns(entries[h], k) && k <= COND
      modifies this, entries
      ensures Value() == LoadReg(old(Value()), k, ext)
    {
      OpenLoad(Value(), k, ext);
      var e := entries[h];
      if !ext.NoExt? && e.sign != ext {
        if k != 0 { Append(Extend(h, ext)); }
        e := e.(sign := ext);
      }
      Touch(h, e);
    }

    method LoadMiss(h: nat, k: nat, ext: Ext)
      requires h < entries.Length && h == FindRegister(entries[..], k) && !Owns(entries[h], k) && k <= COND
      modifies this, entries
      ensures Value() == LoadReg(old(Value()), k, ext)
    {
      OpenLoad(Value(), k, ext);
      Refill(h, k, ext);
      Touch(h, Entry(k, 0, entries[h].locks, if ext.ZExt? then ZExt else SExt, true, false));
    }

    method LoadRegister(k: nat, ext: Ext) returns (h: nat)
      modifies this, entries
      ensures Value() == LoadReg(old(Value()), k, ext)
      ensures h == FindRegister(old(entries[..]), k)
    {
      OpenLoad(Value(), k, ext);
      h := FindAnyRegister(k);
      if h == entries.Length || k > COND {
        ok := false;
      } else if Owns(entries[h], k) {
        LoadHit(h, k, ext);
      } else {
        LoadMiss(h, k, ext);
      }
    }

    method ModifyRegister(k: nat) returns (h: nat)
      modifies this, entries
      ensures Value() == ModifyReg(old(Value()), k)
      ensures h == FindRegister(old(entries[..]), k)
    {
      OpenModify(Value(), k);
      h := FindAnyRegister(k);
      if h == entries.Length {
        ok := false;
        return;
      }
      var e := entries[h];
      if e.live && e.mips != k && e.modified { StoreBack(h); }
      Touch(h, Entry(k, 0, e.locks, NoExt, true, true));
    }

    method ImmediateRegister(k: nat, v: Host)
      modifies this, entries
      ensures Value() == ImmediateReg(old(Value()), k, v)
    {
      OpenModify(Value(), k);
      var h := ModifyRegister(k);
      if h == entries.Length {
        ok := false;
        return;
      }
      Append(MovI(h, v));
      SetAt(h, entries[h].(sign := SExt));
    }

    method UnlockRegister(k: nat)
      modifies this`ok, entries
      ensures Value() == UnlockReg(old(Value()), k)
    {
      OpenUnlock(Value(), k);
      var h := FindLiveRegister(k);
      if h == entries.Length || entries[h].locks == 0 {
        ok := false;
        return;
      }
      SetAt(h, entries[h].(locks := entries[h].locks - 1));
    }

    // ----- flushing -----

    method FlushAt(h: nat)
      requires h < entries.Length
      modifies this`ok, this`code, entries
      ensures Value() == FlushEntry(old(Value()), h)
    {
      var e := entries[h];
      if e.live {
        if e.modified { StoreBack(h); }
        if e.locks > 0 { ok := false; }
        SetAt(h, EMPTY);
      }
    }

    method FlushUpTo(n: nat)
      requires n <= entries.Length
      modifies this`ok, this`code, entries
      ensures Value() == FlushFirst(old(Value()), n)
    {
      for i := 0 to n
        invariant Value() == FlushFirst(old(Value()), i)
      {
        FlushAt(i);
      }
    }

    method FlushWindow()
      modifies this, entries
      ensures Value() == FlushAll(old(Value()))
    {
      FlushUpTo(entries.Length);
      timestamp := 0;
    }

    method FlushCallerSave()
      modifies this`ok, this`code, entries
      ensures Value() == FlushCallerSaved(old(Value()))
    {
      if callerSaved <= entries.Length { FlushUpTo(callerSaved); } else { ok := false; }
    }

    method FlushRegister(k: nat)
      modifies this`ok, this`code, entries
      ensures Value() == FlushOne(old(Value()), k)
    {
      var h := FindLiveRegister(k);
      if h < entries.Length { FlushAt(h); }
    }

    method ResetAll()
      modifies entries
      ensures Value() == old(Value()).(cache := Reset(old(Value()).cache))
    {
      for i := 0 to entries.Length
        invariant forall j :: 0 <= j < i ==> entries[j] == EMPTY
      {
        entries[i] := EMPTY;
      }
      assert entries[..] == seq(entries.Length, _ => EMPTY);
    }
  }
}
