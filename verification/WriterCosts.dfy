/** How many blocks a call of writei logs when others take steps between its own: never more than the
    budget of a call that runs alone, so that each of its calls of log_write keeps to the space that
    begin_op reserved. */
module WriterCosts {
  import opened Bitmap
  import opened Blocks
  import opened FileSystem
  import opened FsBytes
  import opened FsState
  import opened Options
  import opened Sets
  import opened Writers

  /** What a call has logged: `before` in earlier iterations, which cost `cost`, and since then, with
      the free-map blocks `maps`.  ip0 and ip are the inode when the call and the iteration began. */
  datatype Bill = Bill(ip0: Inode, ip: Inode, cost: Cost, before: set<nat>, maps: set<nat>, logged: set<nat>)

  function Block(job: Job): nat { (job.off + job.tot) / BSIZE }

  /** The data block of the iteration, as far as it is known. */
  ghost function Addr(fs: Fs, pc: Pc): nat
    requires Shape(fs) && !pc.Away?
  {
    if !Holds(pc) then At(fs, SlotOf(pc.job.n, Block(pc.job)))
    else if SlotFor(pc) == SlotOf(pc.job.n, Block(pc.job)) then pc.b
    else 0
  }

  /** How many free-map blocks the iteration may have touched. */
  ghost function Allowed(fs: Fs, pc: Pc, bill: Bill): nat
    requires Shape(fs) && !pc.Away? && pc.job.n in fs.inodes && |bill.ip.addrs| == NDIRECT + 1
  {
    var ind := fs.inodes[pc.job.n].addrs[NDIRECT];
    var more := if bill.ip.addrs[NDIRECT] == 0 && ind != 0 then 1 else 0;
    if Holds(pc) then if SlotFor(pc) == SlotOf(pc.job.n, Block(pc.job)) then 1 + more else 1
    else if At(fs, SlotOf(pc.job.n, Block(pc.job))) != 0 then 1 + more
    else if Block(pc.job) >= NDIRECT && ind == 0 then 0
    else more
  }

  /** The part of a bill that the iteration under way has made. */
  ghost predicate Spent(fs: Fs, pc: Pc, bill: Bill)
    requires Shape(fs) && !pc.Away? && pc.job.n in fs.inodes && |bill.ip.addrs| == NDIRECT + 1
  {
    var job, ip := pc.job, fs.inodes[pc.job.n];
    var own := if Block(job) < NDIRECT || ip.addrs[NDIRECT] == 0 then {} else {ip.addrs[NDIRECT]};
    && Iteration(job.off, job.tot, bill.ip, ip, bill.before, bill.logged, Addr(fs, pc), bill.maps)
    && (Addr(fs, pc) == 0 ==> bill.logged <= bill.before + bill.maps + own)
    && |bill.maps| <= Allowed(fs, pc, bill)
    && (Holds(pc) ==> SlotFor(pc) == Unfilled(fs, job) && At(fs, SlotOf(job.n, Block(job))) == 0)
  }

  /** The slot that has to be filled next. */
  ghost function Unfilled(fs: Fs, job: Job): Slot
    requires Shape(fs) && job.n in fs.inodes
  {
    if Block(job) >= NDIRECT && fs.inodes[job.n].addrs[NDIRECT] == 0 then Pointer(job.n, NDIRECT)
    else SlotOf(job.n, Block(job))
  }

  ghost predicate BillRight(fs: Fs, pc: Pc, bill: Bill)
    requires Shape(fs)
  {
    !pc.Away? ==>
      var job := pc.job;
      && job.n in fs.inodes && |bill.ip0.addrs| == |bill.ip.addrs| == NDIRECT + 1
      && if pc.Leaving? then Bounded(bill.cost, job.off, |job.src|, {}, bill.logged)
         else
           && job.tot <= |job.src| && Bounded(bill.cost, job.off, |job.src|, {}, bill.before)
           && Charged(bill.cost, job.off, job.tot, |job.src|, bill.ip0, bill.ip, {}, bill.before)
           && if job.tot == |job.src| then bill.logged == bill.before && !Holds(pc) else Spent(fs, pc, bill)
  }

  ghost function NextBill(s: State, a: Action, bill: Bill): Bill
    requires Inv(s) && Enabled(s, a)
  {
    hide Owned, UsedSet, At, Hand, Rel, Files, Apart, Pcs;
    PcAt(s, a.p);
    var w, pc := Logs(s, a), s.pcs[a.p];
    var logged := if w.None? then bill.logged else bill.logged + {w.value.b};
    match a
    case Start(_, n, _, _) => Bill(s.fs.inodes[n], s.fs.inodes[n], Cost(0, {}, {}, {}), {}, {}, {})
    case Mark(_, b) => bill.(maps := bill.maps + {BBlock(s.fs.lay, b)}, logged := logged)
    case Copy(_) =>
      var ip := s.fs.inodes[pc.job.n];
      Bill(bill.ip0, ip, Charge(bill.cost, Block(pc.job), w.value.b, bill.maps, ip.addrs[NDIRECT]), logged, {}, logged)
    case Leave(_) =>
      if pc.job.tot == |pc.job.src| then bill
      else
        var ind := s.fs.inodes[pc.job.n].addrs[NDIRECT];
        bill.(cost := Charge(bill.cost, Block(pc.job), Addr(s.fs, pc), bill.maps, ind))
    case _ => bill.(logged := logged)
  }

  // ---------------------------------------------------------------- the steps

  /** A write that starts inside a block finds that block there. */
  lemma FirstThere(s: State, job: Job)
    requires Inv(s) && JobRight(s.fs, s.want, job) && job.tot == 0 && job.off % BSIZE != 0
    ensures Shape(s.fs) && Block(job) < MAXFILE && At(s.fs, SlotOf(job.n, Block(job))) != 0
  {
    hide Owned, UsedSet, At, Hand, Rel, Files, Apart, Pcs, Stored, Bytes;
    FileAt(s, job.n);
    assert (job.off - 1) / BSIZE == job.off / BSIZE;
    assert job.off / BSIZE * BSIZE < job.off;
  }

  /** The step of a call that begins. */
  lemma StartBill(s: State, p: nat, n: nat, off: nat, src: seq<byte>, bill: Bill)
    requires Inv(s) && Enabled(s, Start(p, n, off, src))
    ensures var a := Start(p, n, off, src);
      Shape(Next(s, a).fs) && BillRight(Next(s, a).fs, Next(s, a).pcs[p], NextBill(s, a, bill))
  {
    hide Owned, UsedSet, Hand, Rel, Files, Apart, Pcs, Span, Charged, Bounded, At, Spent;
    ChargeStart(off, |src|, s.fs.inodes[n], {});
    SpentAfresh(s.fs, Job(n, off, src, 0), NextBill(s, Start(p, n, off, src), bill));
  }

  lemma DataHasIndirect(fs: Fs, n: nat, bn: nat)
    requires Shape(fs) && n in fs.inodes && NDIRECT <= bn && At(fs, SlotOf(n, bn)) != 0
    ensures fs.inodes[n].addrs[NDIRECT] != 0
  {
  }

  /** balloc sets a bit for the slot that is missing. */
  lemma SpentMark(fs: Fs, job: Job, slot: Slot, b: nat, bill: Bill, x: nat)
    requires Shape(fs) && job.n in fs.inodes && |bill.ip.addrs| == NDIRECT + 1 && Spent(fs, Copying(job), bill)
    requires At(fs, SlotOf(job.n, Block(job))) == 0 && !(job.tot == 0 && job.off % BSIZE != 0)
    requires slot == Unfilled(fs, job)
    ensures Spent(fs, Marked(job, slot, b), bill.(maps := bill.maps + {x}, logged := bill.logged + {x}))
  {
    hide At;
    OneMoreMap(bill.maps, x);
  }

  lemma MarkBill(s: State, p: nat, b: nat, bill: Bill)
    requires Inv(s) && Enabled(s, Mark(p, b)) && Shape(s.fs) && BillRight(s.fs, s.pcs[p], bill)
    ensures var a := Mark(p, b);
      Shape(Next(s, a).fs) && BillRight(Next(s, a).fs, Next(s, a).pcs[p], NextBill(s, a, bill))
  {
    hide Owned, UsedSet, Hand, Rel, Files, Apart, Pcs, Span, Charged, Bounded, EntryAt, TestBit, SetBit, Spent, At;
    var pc := s.pcs[p];
    PcAt(s, p);
    SameMap(s, pc.job.n, Block(pc.job));
    MissingData(s, pc.job);
    if pc.job.tot == 0 && pc.job.off % BSIZE != 0 {
      FirstThere(s, pc.job);
    }
    SpentMark(s.fs, pc.job, Wanting(s, pc.job).value, b, bill, BBlock(s.fs.lay, b));
  }

  lemma MissingData(s: State, job: Job)
    requires Inv(s) && MayCopy(s, job) && Wanting(s, job).Some?
    ensures Shape(s.fs) && At(s.fs, SlotOf(job.n, Block(job))) == 0
    ensures Wanting(s, job).value == Unfilled(s.fs, job)
  {
    hide Owned, UsedSet, Hand, Rel, Files, Apart, Pcs, EntryAt;
    SameMap(s, job.n, Block(job));
    if Block(job) >= NDIRECT && s.fs.inodes[job.n].addrs[NDIRECT] == 0 {
      NoEntries(s.fs.blocks, s.fs.inodes[job.n], Block(job) - NDIRECT);
    }
  }

  /** A block is zeroed and its pointer set. */
  lemma SpentPointer(fs: Fs, fs': Fs, job: Job, slot: Slot, b: nat, bill: Bill)
    requires Shape(fs) && Shape(fs') && job.n in fs.inodes && job.n in fs'.inodes && |bill.ip.addrs| == NDIRECT + 1
    requires slot.Pointer? && slot.inum == job.n && slot.i <= NDIRECT && Spent(fs, Marked(job, slot, b), bill)
    requires forall other :: At(fs', other) == if other == slot then b else At(fs, other)
    requires At(fs, slot) == 0 && b != 0
    ensures Spent(fs', Copying(job), bill.(logged := bill.logged + {b}))
  {
    assert At(fs', Pointer(job.n, NDIRECT)) == fs'.inodes[job.n].addrs[NDIRECT];
    assert At(fs, Pointer(job.n, NDIRECT)) == fs.inodes[job.n].addrs[NDIRECT];
    hide At, Shape;
    if Block(job) < NDIRECT {
      SpentDirect(fs, fs', job, b, bill);
    } else {
      SpentIndirect(fs, fs', job, b, bill);
    }
  }

  lemma SpentDirect(fs: Fs, fs': Fs, job: Job, b: nat, bill: Bill)
    requires Shape(fs) && Shape(fs') && job.n in fs.inodes && job.n in fs'.inodes && |bill.ip.addrs| == NDIRECT + 1
    requires Block(job) < NDIRECT && Spent(fs, Marked(job, SlotOf(job.n, Block(job)), b), bill) && b != 0
    requires At(fs', SlotOf(job.n, Block(job))) == b
    requires fs'.inodes[job.n].addrs[NDIRECT] == fs.inodes[job.n].addrs[NDIRECT]
    ensures Spent(fs', Copying(job), bill.(logged := bill.logged + {b}))
  {
    hide At;
  }

  lemma SpentIndirect(fs: Fs, fs': Fs, job: Job, b: nat, bill: Bill)
    requires Shape(fs) && Shape(fs') && job.n in fs.inodes && job.n in fs'.inodes && |bill.ip.addrs| == NDIRECT + 1
    requires NDIRECT <= Block(job) && Spent(fs, Marked(job, Pointer(job.n, NDIRECT), b), bill) && b != 0
    requires At(fs', SlotOf(job.n, Block(job))) == 0 && fs.inodes[job.n].addrs[NDIRECT] == 0
    requires fs'.inodes[job.n].addrs[NDIRECT] == b
    ensures Spent(fs', Copying(job), bill.(logged := bill.logged + {b}))
  {
    hide At;
  }

  /** An entry of the indirect block is set. */
  lemma SpentEntry(fs: Fs, fs': Fs, job: Job, b: nat, bill: Bill)
    requires Shape(fs) && Shape(fs') && job.n in fs.inodes && job.n in fs'.inodes && |bill.ip.addrs| == NDIRECT + 1
    requires NDIRECT <= Block(job) && fs'.inodes[job.n] == fs.inodes[job.n]
    requires Spent(fs, Cleared(job, Block(job) - NDIRECT, b), bill) && At(fs', SlotOf(job.n, Block(job))) == b != 0
    ensures Spent(fs', Copying(job), bill.(logged := bill.logged + {fs.inodes[job.n].addrs[NDIRECT]}))
  {
    hide At;
  }

  lemma OneMoreMap(maps: set<nat>, x: nat)
    ensures |maps + {x}| <= |maps| + 1
  {
  }

  lemma ClearBill(s: State, p: nat, bill: Bill)
    requires Inv(s) && Enabled(s, Clear(p)) && Shape(s.fs) && BillRight(s.fs, s.pcs[p], bill)
    ensures Shape(Next(s, Clear(p)).fs)
    ensures BillRight(Next(s, Clear(p)).fs, Next(s, Clear(p)).pcs[p], NextBill(s, Clear(p), bill))
  {
    hide Owned, UsedSet, Hand, Rel, Files, Apart, Pcs, Span, Charged, Bounded, At, Attach, Spent;
    var pc := s.pcs[p];
    PcAt(s, p);
    FreshBlock(s.fs, pc.b);
    if pc.slot.Pointer? {
      AttachOwned(s.fs, pc.slot, pc.b);
      AttachOwner(s.fs, pc.slot, pc.b);
      SpentPointer(s.fs, Attach(s.fs, pc.slot, pc.b), pc.job, pc.slot, pc.b, bill);
    } else {
      SpentClear(s.fs, pc.job, pc.slot, pc.b, bill);
    }
  }

  lemma SpentClear(fs: Fs, job: Job, slot: Slot, b: nat, bill: Bill)
    requires Shape(fs) && job.n in fs.inodes && |bill.ip.addrs| == NDIRECT + 1 && slot.Entry?
    requires Spent(fs, Marked(job, slot, b), bill) && b != 0
    ensures Spent(fs, Cleared(job, slot.j, b), bill.(logged := bill.logged + {b}))
  {
    hide At;
  }

  lemma EnterBill(s: State, p: nat, bill: Bill)
    requires Inv(s) && Enabled(s, Enter(p)) && Shape(s.fs) && BillRight(s.fs, s.pcs[p], bill)
    ensures Shape(Next(s, Enter(p)).fs)
    ensures BillRight(Next(s, Enter(p)).fs, Next(s, Enter(p)).pcs[p], NextBill(s, Enter(p), bill))
  {
    hide Owned, UsedSet, Hand, Rel, Files, Apart, Pcs, Span, Charged, Bounded, At, Spent, PutWord, TestBit, SetBit;
    var pc := s.pcs[p];
    PcAt(s, p);
    FreshBlock(s.fs, pc.b);
    AttachOwned(s.fs, SlotFor(pc), pc.b);
    EntrySlot(s.fs, pc.job, pc.j, pc.b, bill);
    SpentEntry(s.fs, Attach(s.fs, SlotFor(pc), pc.b), pc.job, pc.b, bill);
  }

  lemma EntrySlot(fs: Fs, job: Job, j: nat, b: nat, bill: Bill)
    requires Shape(fs) && job.n in fs.inodes && |bill.ip.addrs| == NDIRECT + 1 && Spent(fs, Cleared(job, j, b), bill)
    ensures NDIRECT <= Block(job) && j == Block(job) - NDIRECT
  {
  }

  /** At the head of the loop nothing has been spent on the iteration. */
  lemma SpentAfresh(fs: Fs, job: Job, bill: Bill)
    requires Shape(fs) && job.n in fs.inodes && bill.ip == fs.inodes[job.n] && bill.maps == {}
    requires bill.logged == bill.before
    ensures Spent(fs, Copying(job), bill)
  {
    if Block(job) >= NDIRECT && At(fs, SlotOf(job.n, Block(job))) != 0 {
      DataHasIndirect(fs, job.n, Block(job));
    }
    hide At;
  }

  lemma SpentCopy(fs: Fs, job: Job, bill: Bill)
    requires Shape(fs) && job.n in fs.inodes && |bill.ip0.addrs| == |bill.ip.addrs| == NDIRECT + 1
    requires job.tot < |job.src|
    requires Spent(fs, Copying(job), bill) && At(fs, SlotOf(job.n, Block(job))) != 0
    requires Charged(bill.cost, job.off, job.tot, |job.src|, bill.ip0, bill.ip, {}, bill.before)
    ensures var ip, addr := fs.inodes[job.n], At(fs, SlotOf(job.n, Block(job)));
      var k' := Charge(bill.cost, Block(job), addr, bill.maps, ip.addrs[NDIRECT]);
      && Bounded(k', job.off, |job.src|, {}, bill.logged + {addr})
      && Charged(k', job.off, job.tot + |Chunk(job)|, |job.src|, bill.ip0, ip, {}, bill.logged + {addr})
  {
    hide At, Charged, Bounded, Span;
    var ip, addr := fs.inodes[job.n], At(fs, SlotOf(job.n, Block(job)));
    ChargeStep(bill.cost, job.off, job.tot, |job.src|, |Chunk(job)|, bill.ip0, bill.ip, ip,
               {}, bill.before, bill.logged + {addr}, addr, bill.maps);
  }

  /** A chunk is copied, and the next iteration begins. */
  lemma CopyBill(s: State, p: nat, bill: Bill)
    requires Inv(s) && Enabled(s, Copy(p)) && Shape(s.fs) && BillRight(s.fs, s.pcs[p], bill)
    ensures Shape(Next(s, Copy(p)).fs)
    ensures BillRight(Next(s, Copy(p)).fs, Next(s, Copy(p)).pcs[p], NextBill(s, Copy(p), bill))
  {
    hide Owned, UsedSet, Hand, Rel, Files, Apart, Pcs, Span, Charged, Bounded, At, EntryAt, Patch, Splice, Spent;
    hide Charge;
    var s', job, bill' := Next(s, Copy(p)), s.pcs[p].job, NextBill(s, Copy(p), bill);
    PcAt(s, p);
    SameMap(s, job.n, Block(job));
    SpentCopy(s.fs, job, bill);
    NextKeeps(s, Copy(p));
    PcAt(s', p);
    SpentAfresh(s'.fs, s'.pcs[p].job, bill');
  }

  lemma LeaveBill(s: State, p: nat, bill: Bill)
    requires Inv(s) && Enabled(s, Leave(p)) && Shape(s.fs) && BillRight(s.fs, s.pcs[p], bill)
    ensures Shape(Next(s, Leave(p)).fs)
    ensures BillRight(Next(s, Leave(p)).fs, Next(s, Leave(p)).pcs[p], NextBill(s, Leave(p), bill))
  {
    hide Owned, UsedSet, Hand, Rel, Files, Apart, Pcs, Span, Charged, Bounded, At;
    var pc, job := s.pcs[p], s.pcs[p].job;
    PcAt(s, p);
    if job.tot < |job.src| {
      ChargeStep(bill.cost, job.off, job.tot, |job.src|, ChunkAt(job.off, job.tot, |job.src|), bill.ip0, bill.ip,
                 s.fs.inodes[job.n], {}, bill.before, bill.logged, Addr(s.fs, pc), bill.maps);
    }
  }

  lemma BillKeeps(s: State, a: Action, bill: Bill)
    requires Inv(s) && Enabled(s, a) && Shape(s.fs) && BillRight(s.fs, s.pcs[a.p], bill)
    ensures Shape(Next(s, a).fs) && BillRight(Next(s, a).fs, Next(s, a).pcs[a.p], NextBill(s, a, bill))
  {
    hide Inv, Next, NextBill, BillRight;
    match a
    case Start(p, n, off, src) => StartBill(s, p, n, off, src, bill);
    case Mark(p, b) => MarkBill(s, p, b, bill);
    case Clear(p) => ClearBill(s, p, bill);
    case Enter(p) => EnterBill(s, p, bill);
    case Copy(p) => CopyBill(s, p, bill);
    case Leave(p) => LeaveBill(s, p, bill);
    case Update(p) => UpdateBill(s, p, bill);
  }

  lemma UpdateBill(s: State, p: nat, bill: Bill)
    requires Inv(s) && Enabled(s, Update(p))
    ensures Shape(Next(s, Update(p)).fs)
    ensures BillRight(Next(s, Update(p)).fs, Next(s, Update(p)).pcs[p], NextBill(s, Update(p), bill))
  {
    hide Owned, UsedSet, Hand, Rel, Files, Apart, Pcs, At;
    NextKeeps(s, Update(p));
    PcAt(Next(s, Update(p)), p);
  }

  /** The bill of a process that writes another file. */
  lemma OtherBill(fs: Fs, fs': Fs, n: nat, pc: Pc, bill: Bill)
    requires Moves(fs, fs', n) && Shape(fs) && Shape(fs') && BillRight(fs, pc, bill) && (!pc.Away? ==> pc.job.n != n)
    ensures BillRight(fs', pc, bill)
  {
    hide Owned, UsedSet, At, OthersKept, Stored, Charged, Bounded, Iteration;
    if !pc.Away? {
      assert At(fs', SlotOf(pc.job.n, Block(pc.job))) == At(fs, SlotOf(pc.job.n, Block(pc.job)));
    }
  }

  /** Whatever others do in between, no call of log_write is beyond the budget of the call. */
  lemma WithinBudget(s: State, a: Action, bill: Bill)
    requires Inv(s) && Enabled(s, a) && Shape(s.fs) && BillRight(s.fs, s.pcs[a.p], bill) && Logs(s, a).Some?
    ensures !s.pcs[a.p].Away? && NextBill(s, a, bill).logged == bill.logged + {Logs(s, a).value.b}
    ensures |bill.logged + {Logs(s, a).value.b}| <= Budget(s.pcs[a.p].job.off, |s.pcs[a.p].job.src|)
  {
    hide Owned, UsedSet, Hand, Rel, Files, Apart, Pcs, Span, Charged, Bounded, At, Spent, Budget, Attach, Finished;
    var pc, b := s.pcs[a.p], Logs(s, a).value.b;
    var job := pc.job;
    if a.Update? {
      ChargeTotal(bill.cost, job.off, |job.src|, {}, bill.logged, b);
      assert bill.logged + {b} - {} == bill.logged + {b};
    } else {
      BillKeeps(s, a, bill);
      var s' := Next(s, a);
      SameJob(s, a);
      Total(s'.fs, s'.pcs[a.p], NextBill(s, a, bill));
    }
  }

  lemma SameJob(s: State, a: Action)
    requires Inv(s) && Enabled(s, a) && Logs(s, a).Some? && !a.Update?
    ensures var pc, pc' := s.pcs[a.p], Next(s, a).pcs[a.p];
      !pc.Away? && !pc'.Away? && !pc'.Leaving? && pc'.job.off == pc.job.off && pc'.job.src == pc.job.src
  {
    hide Owned, UsedSet, Hand, Rel, Files, Apart, Pcs, At, Attach, Finished;
  }

  lemma Total(fs: Fs, pc: Pc, bill: Bill)
    requires Shape(fs) && !pc.Away? && !pc.Leaving? && BillRight(fs, pc, bill)
    ensures |bill.logged| <= Budget(pc.job.off, |pc.job.src|)
  {
    hide At, Charged, Bounded, Span, Budget, Iteration;
    var job, k := pc.job, bill.cost;
    if job.tot < |job.src| {
      var ip, addr := fs.inodes[job.n], Addr(fs, pc);
      ChargeStep(k, job.off, job.tot, |job.src|, ChunkAt(job.off, job.tot, |job.src|), bill.ip0, bill.ip, ip,
                 {}, bill.before, bill.logged, addr, bill.maps);
      k := Charge(k, Block(job), addr, bill.maps, ip.addrs[NDIRECT]);
    }
    ChargeTotal(k, job.off, |job.src|, {}, bill.logged, 0);
    SubsetSize(bill.logged, bill.logged + {0} - {});
  }
}
