/** The flock on the rig's lock file and the holder note inside it: take,
    truncate, write, erase and unlock are separate steps, interleaved with other
    takers, with status probes, with crashes, and with people deleting the file. */
module RigLock {
  import opened Common
  import Retry

  /** Byte `pos` of the note that taker `author` writes. */
  datatype Mark = Mark(author: nat, pos: nat)

  /** Every taker writes a note of its own; its JSON is never empty. */
  function Note(p: nat, length: nat): (note: seq<Mark>)
    ensures |note| == length && forall k :: 0 <= k < length ==> note[k] == Mark(p, k)
  {
    seq(length, (k: nat) => Mark(p, k))
  }

  /** An inode keeps its lock and contents whether or not a path still leads to it. */
  datatype Inode = Inode(lock: Option<nat>, content: seq<Mark>)

  /** A taker or prober, between two system calls. */
  datatype Proc =
    | Idle
    | Polling(inode: nat)             // file open, trying for the lock
    | Locked(inode: nat)              // lock just taken, note not truncated yet
    | Writing(inode: nat, at: nat)    // truncated and rewound; `at` bytes of the note written
    | Holding(inode: nat)             // the rig is ours
    | Erased(inode: nat)              // dropping: note truncated, lock not released yet
    | Probing(inode: nat)             // a status probe that got the lock
    | Asking                          // found the lock held, about to read the note
    | Told(note: seq<Mark>)           // has read it; empty if there was no file
    | Done                            // released, failed, or told "free"
    | Crashed

  datatype State = State(path: Option<nat>, inodes: seq<Inode>, procs: seq<Proc>)

  /** `ok`: whether the best-effort `set_len(0)` took effect. */
  datatype Label =
    | Open(p: nat)
    | TryLock(p: nat)
    | GiveUp(p: nat, error: bool)     // an I/O error, or the deadline
    | Truncate(p: nat, ok: bool)
    | WriteSome(p: nat, count: nat)
    | Ready(p: nat)
    | Erase(p: nat, ok: bool)
    | Unlock(p: nat)
    | Probe(p: nat)
    | Unprobe(p: nat)
    | ReadNote(p: nat)
    | Crash(p: nat)
    | Delete

  predicate HasALock(c: Proc) {
    c.Locked? || c.Writing? || c.Holding? || c.Erased? || c.Probing?
  }

  /** Holding the lock of inode `i`, in whatever phase. */
  predicate Has(c: Proc, i: nat) {
    HasALock(c) && c.inode == i
  }

  /** Past its own truncation and not yet erased. */
  predicate Signed(c: Proc, i: nat) {
    (c.Writing? || c.Holding?) && c.inode == i
  }

  predicate Enabled(st: State, l: Label) {
    l.Delete? ||
    (l.p < |st.procs| &&
     var c := st.procs[l.p];
     match l
     case Open(_) => c.Idle?
     case TryLock(_) => c.Polling? && c.inode < |st.inodes|
     case GiveUp(_, _) => c.Polling?
     case Truncate(_, _) => c.Locked? && c.inode < |st.inodes|
     case WriteSome(_, _) => c.Writing? && c.inode < |st.inodes|
     case Ready(_) => c.Writing?
     case Erase(_, _) => c.Holding? && c.inode < |st.inodes|
     case Unlock(_) => c.Erased? && c.inode < |st.inodes|
     case Probe(_) => c.Idle? && (st.path.Some? ==> st.path.value < |st.inodes|)
     case Unprobe(_) => c.Probing? && c.inode < |st.inodes|
     case ReadNote(_) => c.Asking? && (st.path.Some? ==> st.path.value < |st.inodes|)
     case Delete => true
     case Crash(_) => !c.Told? && !c.Done? && !c.Crashed? && (HasALock(c) ==> c.inode < |st.inodes|))
  }

  function Relock(st: State, i: nat, lock: Option<nat>): State
    requires i < |st.inodes|
  {
    st.(inodes := st.inodes[i := st.inodes[i].(lock := lock)])
  }

  function Rewrite(st: State, i: nat, content: seq<Mark>): State
    requires i < |st.inodes|
  {
    st.(inodes := st.inodes[i := st.inodes[i].(content := content)])
  }

  function Go(st: State, p: nat, to: Proc): State
    requires p < |st.procs|
  {
    st.(procs := st.procs[p := to])
  }

  /** `bytes` written over `text` at offset `at`. */
  function Overwrite(text: seq<Mark>, at: nat, bytes: seq<Mark>): seq<Mark>
    requires at <= |text|
  {
    text[..at] + bytes + text[Min(|text|, at + |bytes|)..]
  }

  function Next(st: State, l: Label): State
    requires Enabled(st, l)
  {
    if l.Delete? then st.(path := None)
    else
      var c := st.procs[l.p];
      match l
      case Open(p) =>
        if st.path.Some? then Go(st, p, Polling(st.path.value))
        else Go(st.(path := Some(|st.inodes|), inodes := st.inodes + [Inode(None, [])]), p, Polling(|st.inodes|))
      case TryLock(p) =>
        if st.inodes[c.inode].lock.None? then Go(Relock(st, c.inode, Some(p)), p, Locked(c.inode)) else st
      case GiveUp(p, error) => Go(st, p, if error then Done else Asking)
      case Truncate(p, ok) => Go(if ok then Rewrite(st, c.inode, []) else st, p, Writing(c.inode, 0))
      case WriteSome(p, count) =>
        var text := st.inodes[c.inode].content;
        var at := Min(c.at, |text|);
        Go(Rewrite(st, c.inode, Overwrite(text, at, Note(p, c.at + count)[c.at..])), p, Writing(c.inode, c.at + count))
      case Ready(p) => Go(st, p, Holding(c.inode))
      case Erase(p, ok) => Go(if ok then Rewrite(st, c.inode, []) else st, p, Erased(c.inode))
      case Unlock(p) => Go(Relock(st, c.inode, None), p, Done)
      case Probe(p) =>
        if st.path.None? then Go(st, p, Done)
        else if st.inodes[st.path.value].lock.Some? then Go(st, p, Asking)
        else Go(Relock(st, st.path.value, Some(p)), p, Probing(st.path.value))
      case Unprobe(p) => Go(Relock(st, c.inode, None), p, Done)
      case ReadNote(p) => Go(st, p, Told(if st.path.Some? then st.inodes[st.path.value].content else []))
      case Crash(p) =>
        if HasALock(c) then Go(Relock(st, c.inode, None), p, Crashed) else Go(st, p, Crashed)
  }

  predicate Init(st: State) {
    st.path.None? && st.inodes == [] && forall p :: 0 <= p < |st.procs| ==> st.procs[p].Idle?
  }

  ghost predicate Run(states: seq<State>, labels: seq<Label>) {
    && |states| == |labels| + 1 && Init(states[0])
    && forall n :: 0 <= n < |labels| ==> Enabled(states[n], labels[n]) && states[n + 1] == Next(states[n], labels[n])
  }

  // ---------------------------------------------------------------------
  // The lock.
  // ---------------------------------------------------------------------

  predicate ProcOk(st: State, p: nat)
    requires p < |st.procs|
  {
    var c := st.procs[p];
    && (c.Polling? ==> c.inode < |st.inodes|)
    && (HasALock(c) ==> c.inode < |st.inodes| && st.inodes[c.inode].lock == Some(p))
  }

  predicate LockOk(st: State, i: nat)
    requires i < |st.inodes|
  {
    st.inodes[i].lock.Some? ==>
      st.inodes[i].lock.value < |st.procs| && Has(st.procs[st.inodes[i].lock.value], i)
  }

  ghost predicate Inv(st: State) {
    && (st.path.Some? ==> st.path.value < |st.inodes|)
    && (forall p :: 0 <= p < |st.procs| ==> ProcOk(st, p))
    && (forall i :: 0 <= i < |st.inodes| ==> LockOk(st, i))
  }

  lemma NextKeepsProc(st: State, l: Label, p: nat)
    requires Inv(st) && Enabled(st, l) && p < |st.procs|
    ensures ProcOk(Next(st, l), p)
  {
    assert ProcOk(st, p);
    if !l.Delete? {
      assert ProcOk(st, l.p);
    }
  }

  lemma NextKeepsLock(st: State, l: Label, i: nat)
    requires Inv(st) && Enabled(st, l) && i < |Next(st, l).inodes|
    ensures LockOk(Next(st, l), i)
  {
    if !l.Delete? {
      assert ProcOk(st, l.p);
    }
    if i < |st.inodes| {
      assert LockOk(st, i);
    }
  }

  lemma NextKeepsInv(st: State, l: Label)
    requires Inv(st) && Enabled(st, l)
    ensures Inv(Next(st, l))
  {
    forall p | 0 <= p < |st.procs| ensures ProcOk(Next(st, l), p) {
      NextKeepsProc(st, l, p);
    }
    forall i | 0 <= i < |Next(st, l).inodes| ensures LockOk(Next(st, l), i) {
      NextKeepsLock(st, l, i);
    }
  }

  lemma {:induction false} RunKeepsInv(states: seq<State>, labels: seq<Label>, n: nat)
    requires Run(states, labels) && n < |states|
    ensures Inv(states[n])
  {
    if n == 0 {
    } else {
      RunKeepsInv(states, labels, n - 1);
      NextKeepsInv(states[n - 1], labels[n - 1]);
      assert states[n - 1 + 1] == Next(states[n - 1], labels[n - 1]);
    }
  }

  /** On one inode at most one process is in any lock-holding phase, probes included. */
  lemma OneHolderPerInode(states: seq<State>, labels: seq<Label>, n: nat, i: nat, p: nat, q: nat)
    requires Run(states, labels) && n < |states| && p < |states[n].procs| && q < |states[n].procs|
    requires Has(states[n].procs[p], i) && Has(states[n].procs[q], i)
    ensures p == q
  {
    RunKeepsInv(states, labels, n);
    assert ProcOk(states[n], p) && ProcOk(states[n], q);
  }

  /** Only the holder of an inode's lock ever changes its contents. */
  lemma OnlyHoldersWrite(states: seq<State>, labels: seq<Label>, n: nat, i: nat)
    requires Run(states, labels) && n < |labels| && i < |states[n].inodes|
    ensures i < |states[n + 1].inodes|
    ensures states[n + 1].inodes[i].content != states[n].inodes[i].content ==>
              !labels[n].Delete? && states[n].inodes[i].lock == Some(labels[n].p)
  {
    RunKeepsInv(states, labels, n);
    assert states[n + 1] == Next(states[n], labels[n]);
    if !labels[n].Delete? {
      assert ProcOk(states[n], labels[n].p);
    }
  }

  lemma HeldIffHas(st: State, i: nat)
    requires Inv(st) && i < |st.inodes|
    ensures st.inodes[i].lock.Some? <==> exists q :: 0 <= q < |st.procs| && Has(st.procs[q], i)
  {
    assert LockOk(st, i);
    if st.inodes[i].lock.Some? {
      var q := st.inodes[i].lock.value;
      assert 0 <= q < |st.procs| && Has(st.procs[q], i);
    } else {
      forall q | 0 <= q < |st.procs| ensures !Has(st.procs[q], i) {
        assert ProcOk(st, q);
      }
    }
  }

  /** A status probe sees the rig held exactly when the lock file exists and some
      process is in a holding phase on it; it and all that follows it touch no note. */
  lemma ProbeIsHonest(states: seq<State>, labels: seq<Label>, n: nat)
    requires Run(states, labels) && n < |labels|
    requires labels[n].Probe? || labels[n].Unprobe? || labels[n].ReadNote?
    ensures var st, to, p := states[n], states[n + 1], labels[n].p;
            && |to.inodes| == |st.inodes|
            && (forall i :: 0 <= i < |st.inodes| ==> to.inodes[i].content == st.inodes[i].content)
            && (labels[n].Probe? ==>
                  (to.procs[p].Asking? <==>
                     st.path.Some? && exists q :: 0 <= q < |st.procs| && Has(st.procs[q], st.path.value)))
  {
    RunKeepsInv(states, labels, n);
    var st, l := states[n], labels[n];
    assert states[n + 1] == Next(st, l);
    if l.Probe? && st.path.Some? {
      HeldIffHas(st, st.path.value);
    }
  }

  /** A try takes the lock exactly if no process is in a holding phase on the inode;
      otherwise the taker goes on polling that same inode. */
  lemma TakesIffFree(states: seq<State>, labels: seq<Label>, n: nat, p: nat)
    requires Run(states, labels) && n < |labels| && labels[n] == TryLock(p)
    ensures p < |states[n].procs| == |states[n + 1].procs| && states[n].procs[p].Polling?
    ensures var i := states[n].procs[p].inode;
            var held := exists q :: 0 <= q < |states[n].procs| && Has(states[n].procs[q], i);
            states[n + 1].procs[p] == if held then Polling(i) else Locked(i)
  {
    RunKeepsInv(states, labels, n);
    assert states[n + 1] == Next(states[n], labels[n]);
    assert ProcOk(states[n], p);
    HeldIffHas(states[n], states[n].procs[p].inode);
  }

  /** However a holding process lets go, by its own unlock, at the end of its probe or
      by dying, nobody is left in a holding phase on that inode. */
  lemma LettingGoFrees(states: seq<State>, labels: seq<Label>, n: nat, p: nat, i: nat, q: nat)
    requires Run(states, labels) && n < |labels| && labels[n] in {Unlock(p), Unprobe(p), Crash(p)}
    requires p < |states[n].procs| && Has(states[n].procs[p], i) && q < |states[n + 1].procs|
    ensures !Has(states[n + 1].procs[q], i)
  {
    RunKeepsInv(states, labels, n);
    RunKeepsInv(states, labels, n + 1);
    assert states[n + 1] == Next(states[n], labels[n]);
    assert ProcOk(states[n], p) && ProcOk(states[n + 1], q);
  }

  /** A taker polls the inode the path leads to; there is a new one exactly if it led
      nowhere. */
  lemma OpenFollowsThePath(states: seq<State>, labels: seq<Label>, n: nat, p: nat)
    requires Run(states, labels) && n < |labels| && labels[n] == Open(p)
    ensures p < |states[n + 1].procs| && states[n + 1].path.Some?
    ensures states[n + 1].procs[p] == Polling(states[n + 1].path.value)
    ensures states[n].path.Some? ==> states[n + 1].path == states[n].path && states[n + 1].inodes == states[n].inodes
    ensures states[n].path.None? ==> states[n + 1].inodes == states[n].inodes + [Inode(None, [])]
                                     && states[n + 1].path == Some(|states[n].inodes|)
  {
    assert states[n + 1] == Next(states[n], labels[n]);
  }

  // ---------------------------------------------------------------------
  // Deleting the file.
  // ---------------------------------------------------------------------

  lemma {:induction false} UndeletedMeansOneInode(states: seq<State>, labels: seq<Label>, n: nat)
    requires Run(states, labels) && n < |states|
    requires forall k :: 0 <= k < n ==> !labels[k].Delete?
    ensures |states[n].inodes| == if states[n].path.Some? then 1 else 0
  {
    if n == 0 {
    } else {
      UndeletedMeansOneInode(states, labels, n - 1);
      assert states[n - 1 + 1] == Next(states[n - 1], labels[n - 1]);
    }
  }

  /** As long as nobody deletes the lock file, the whole rig has one holder at most. */
  lemma UndeletedMeansOneHolder(states: seq<State>, labels: seq<Label>, n: nat, p: nat, q: nat)
    requires Run(states, labels) && n < |states| && p < |states[n].procs| && q < |states[n].procs|
    requires forall k :: 0 <= k < n ==> !labels[k].Delete?
    requires states[n].procs[p].Holding? && states[n].procs[q].Holding?
    ensures p == q
  {
    UndeletedMeansOneInode(states, labels, n);
    RunKeepsInv(states, labels, n);
    assert ProcOk(states[n], p) && ProcOk(states[n], q);
  }

  /** Deleting it frees nothing, yet lets a second process in: two holders at once. */
  lemma DeletingLetsASecondHolderIn() returns (states: seq<State>, labels: seq<Label>)
    ensures Run(states, labels) && |labels| == 9 && labels[4].Delete?
    ensures states[5].inodes == states[4].inodes && states[5].procs == states[4].procs
    ensures var last := states[|labels|]; |last.procs| == 2 && last.procs[0].Holding? && last.procs[1].Holding?
  {
    labels := [Open(0), TryLock(0), Truncate(0, true), Ready(0), Delete,
               Open(1), TryLock(1), Truncate(1, true), Ready(1)];
    var free, first, second := Inode(None, []), Inode(Some(0), []), Inode(Some(1), []);
    states := [State(None, [], [Idle, Idle]),
               State(Some(0), [free], [Polling(0), Idle]),
               State(Some(0), [first], [Locked(0), Idle]),
               State(Some(0), [first], [Writing(0, 0), Idle]),
               State(Some(0), [first], [Holding(0), Idle]),
               State(None, [first], [Holding(0), Idle]),
               State(Some(1), [first, free], [Holding(0), Polling(1)]),
               State(Some(1), [first, second], [Holding(0), Locked(1)]),
               State(Some(1), [first, second], [Holding(0), Writing(1, 0)]),
               State(Some(1), [first, second], [Holding(0), Holding(1)])];
    forall n | 0 <= n < |labels| ensures Enabled(states[n], labels[n]) && states[n + 1] == Next(states[n], labels[n]) {
      if n < 3 {
        assert n == 0 || n == 1 || n == 2;
      } else if n < 6 {
        assert n == 3 || n == 4 || n == 5;
      } else {
        assert n == 6 || n == 7 || n == 8;
      }
    }
  }

  // ---------------------------------------------------------------------
  // The note.
  // ---------------------------------------------------------------------

  predicate OpsWork(l: Label) {
    (l.Truncate? ==> l.ok) && (l.Erase? ==> l.ok)
  }

  /** What inode `i` may contain. Once its lock holder has truncated it, just the
      holder's own note as far as written; otherwise only what crashed processes left. */
  ghost predicate NoteOk(st: State, i: nat)
    requires i < |st.inodes|
  {
    var inode := st.inodes[i];
    if inode.lock.Some? && inode.lock.value < |st.procs| && Signed(st.procs[inode.lock.value], i) then
      var c := st.procs[inode.lock.value];
      inode.content == Note(inode.lock.value, if c.Writing? then c.at else |inode.content|)
    else
      forall k :: 0 <= k < |inode.content| ==>
        inode.content[k].author < |st.procs| && st.procs[inode.content[k].author].Crashed?
  }

  /** What a step of a process that does not hold inode `i` leaves alone there. */
  lemma StepElsewhere(st: State, l: Label, i: nat)
    requires Inv(st) && Enabled(st, l) && i < |st.inodes| && !l.Delete? && !Has(st.procs[l.p], i)
    ensures var to := Next(st, l);
            && i < |to.inodes| && to.inodes[i].content == st.inodes[i].content
            && |to.procs| == |st.procs| && to.procs == st.procs[l.p := to.procs[l.p]]
            && !Signed(to.procs[l.p], i)
            && !st.procs[l.p].Crashed?
            && (to.inodes[i].lock == st.inodes[i].lock
                || (st.inodes[i].lock.None? && to.inodes[i].lock == Some(l.p)))
  {
    assert ProcOk(st, l.p);
  }

  lemma ElsewhereKeepsNote(st: State, l: Label, i: nat)
    requires Inv(st) && Enabled(st, l) && i < |st.inodes| && NoteOk(st, i)
    requires l.Delete? || !Has(st.procs[l.p], i)
    ensures i < |Next(st, l).inodes| && NoteOk(Next(st, l), i)
  {
    if l.Delete? {
      assert Next(st, l).inodes == st.inodes && Next(st, l).procs == st.procs;
    } else {
      assert LockOk(st, i);
      StepElsewhere(st, l, i);
    }
  }

  lemma HolderKeepsNote(st: State, l: Label, i: nat)
    requires Inv(st) && Enabled(st, l) && OpsWork(l) && i < |st.inodes| && NoteOk(st, i)
    requires !l.Delete? && Has(st.procs[l.p], i)
    ensures NoteOk(Next(st, l), i)
  {
    assert ProcOk(st, l.p);
    if l.WriteSome? {
      WritingOn(l.p, st.procs[l.p].at, l.count);
    }
  }

  /** Writing the next bytes of a note after its first `at` bytes extends it. */
  lemma WritingOn(p: nat, at: nat, count: nat)
    ensures Overwrite(Note(p, at), at, Note(p, at + count)[at..]) == Note(p, at + count)
  {
  }

  lemma StepKeepsNote(st: State, l: Label, i: nat)
    requires Inv(st) && Enabled(st, l) && OpsWork(l)
    requires i < |st.inodes| ==> NoteOk(st, i)
    ensures i < |Next(st, l).inodes| ==> NoteOk(Next(st, l), i)
  {
    if i < |st.inodes| {
      if l.Delete? || !Has(st.procs[l.p], i) {
        ElsewhereKeepsNote(st, l, i);
      } else {
        HolderKeepsNote(st, l, i);
      }
    }
  }

  lemma {:induction false} RunKeepsNotes(states: seq<State>, labels: seq<Label>, n: nat, i: nat)
    requires Run(states, labels) && n < |states| && i < |states[n].inodes|
    requires forall k :: 0 <= k < n ==> OpsWork(labels[k])
    ensures NoteOk(states[n], i)
  {
    if n == 0 {
    } else {
      RunKeepsInv(states, labels, n - 1);
      if i < |states[n - 1].inodes| {
        RunKeepsNotes(states, labels, n - 1, i);
      }
      StepKeepsNote(states[n - 1], labels[n - 1], i);
      assert states[n - 1 + 1] == Next(states[n - 1], labels[n - 1]);
    }
  }

  /** In every run whose truncations work, each byte of a lock file was written by
      the process that holds its lock, or by one that crashed. */
  lemma NoteNamesHolderOrTheDead(states: seq<State>, labels: seq<Label>, n: nat, i: nat, k: nat)
    requires Run(states, labels) && n < |states| && i < |states[n].inodes| && k < |states[n].inodes[i].content|
    requires forall m :: 0 <= m < n ==> OpsWork(labels[m])
    ensures var st, author := states[n], states[n].inodes[i].content[k].author;
            && author < |st.procs|
            && ((st.inodes[i].lock == Some(author) && Has(st.procs[author], i)) || st.procs[author].Crashed?)
  {
    RunKeepsInv(states, labels, n);
    RunKeepsNotes(states, labels, n, i);
    assert LockOk(states[n], i);
  }

  lemma OnlyACrashKills(st: State, l: Label, p: nat)
    requires Enabled(st, l) && l != Crash(p) && p < |st.procs| && !st.procs[p].Crashed?
    ensures |Next(st, l).procs| == |st.procs| && !Next(st, l).procs[p].Crashed?
  {
  }

  lemma {:induction false} NoCrashNotDead(states: seq<State>, labels: seq<Label>, n: nat, p: nat)
    requires Run(states, labels) && n < |states| && p < |states[0].procs|
    requires forall m :: 0 <= m < n ==> labels[m] != Crash(p)
    ensures p < |states[n].procs| && !states[n].procs[p].Crashed?
  {
    if n == 0 {
    } else {
      NoCrashNotDead(states, labels, n - 1, p);
      OnlyACrashKills(states[n - 1], labels[n - 1], p);
      assert states[n - 1 + 1] == Next(states[n - 1], labels[n - 1]);
    }
  }

  lemma {:induction false} ProcsStay(states: seq<State>, labels: seq<Label>, n: nat)
    requires Run(states, labels) && n < |states|
    ensures |states[n].procs| == |states[0].procs|
  {
    if n == 0 {
    } else {
      ProcsStay(states, labels, n - 1);
      assert states[n - 1 + 1] == Next(states[n - 1], labels[n - 1]);
    }
  }

  /** Without crashes a non-empty note's author holds the lock at that very moment,
      whoever is polling, probing or reading. */
  lemma CrashFreeNoteNamesTheHolder(states: seq<State>, labels: seq<Label>, n: nat, i: nat, k: nat)
    requires Run(states, labels) && n < |states| && i < |states[n].inodes| && k < |states[n].inodes[i].content|
    requires forall m :: 0 <= m < n ==> OpsWork(labels[m]) && !labels[m].Crash?
    ensures states[n].inodes[i].lock == Some(states[n].inodes[i].content[k].author)
  {
    NoteNamesHolderOrTheDead(states, labels, n, i, k);
    ProcsStay(states, labels, n);
    NoCrashNotDead(states, labels, n, states[n].inodes[i].content[k].author);
  }

  /** Crashes or not, once a holder has got past its own truncation the file says
      nothing but its own note, so far as it is written. */
  lemma SignedNoteIsTheHolders(states: seq<State>, labels: seq<Label>, n: nat, p: nat)
    requires Run(states, labels) && n < |states| && p < |states[n].procs|
    requires states[n].procs[p].Writing? || states[n].procs[p].Holding?
    requires forall m :: 0 <= m < n ==> OpsWork(labels[m])
    ensures var c := states[n].procs[p];
            && c.inode < |states[n].inodes|
            && var text := states[n].inodes[c.inode].content;
               text == Note(p, |text|) && (c.Writing? ==> |text| == c.at)
  {
    RunKeepsInv(states, labels, n);
    assert ProcOk(states[n], p);
    RunKeepsNotes(states, labels, n, states[n].procs[p].inode);
  }

  /** The note a probe or an impatient contender reads off the path names, in every
      byte, who holds the lock at that moment, or else a process that crashed. */
  lemma ToldOfTheHolderOrTheDead(states: seq<State>, labels: seq<Label>, n: nat, k: nat)
    requires Run(states, labels) && n < |labels| && labels[n].ReadNote?
    requires forall m :: 0 <= m < n ==> OpsWork(labels[m])
    ensures labels[n].p < |states[n + 1].procs| && states[n + 1].procs[labels[n].p].Told?
    ensures states[n].path.Some? ==> states[n].path.value < |states[n].inodes|
    ensures states[n + 1].procs[labels[n].p].note ==
              if states[n].path.Some? then states[n].inodes[states[n].path.value].content else []
    ensures var st, note := states[n], states[n + 1].procs[labels[n].p].note;
            k < |note| ==>
              && st.path.Some? && st.path.value < |st.inodes| && note[k].author < |st.procs|
              && (|| (st.inodes[st.path.value].lock == Some(note[k].author)
                      && Has(st.procs[note[k].author], st.path.value))
                  || exists m :: 0 <= m < n && labels[m] == Crash(note[k].author))
  {
    RunKeepsInv(states, labels, n);
    assert states[n + 1] == Next(states[n], labels[n]);
    var st, note := states[n], states[n + 1].procs[labels[n].p].note;
    if k < |note| {
      NoteNamesHolderOrTheDead(states, labels, n, st.path.value, k);
      if forall m :: 0 <= m < n ==> labels[m] != Crash(note[k].author) {
        ProcsStay(states, labels, n);
        NoCrashNotDead(states, labels, n, note[k].author);
      }
    }
  }

  /** How many bytes of its note process `p` has written, read off its own writes. */
  function BytesWritten(labels: seq<Label>, n: nat, p: nat): nat
    requires n <= |labels|
  {
    if n == 0 then 0
    else BytesWritten(labels, n - 1, p)
         + if labels[n - 1].WriteSome? && labels[n - 1].p == p then labels[n - 1].count else 0
  }

  /** The file of a process that signs or holds is its own note of `written` bytes. */
  ghost predicate SignedSoFar(st: State, p: nat, written: nat)
    requires p < |st.procs|
  {
    var c := st.procs[p];
    && (c.Idle? || c.Polling? || c.Locked? ==> written == 0)
    && (c.Writing? || c.Holding? ==> c.inode < |st.inodes| && st.inodes[c.inode].content == Note(p, written))
    && (c.Writing? ==> c.at == written)
  }

  lemma OthersKeepSigned(st: State, l: Label, p: nat, written: nat)
    requires Inv(st) && Enabled(st, l) && p < |st.procs| && SignedSoFar(st, p, written) && (l.Delete? || l.p != p)
    ensures p < |Next(st, l).procs| && SignedSoFar(Next(st, l), p, written)
  {
    assert ProcOk(st, p);
    if !l.Delete? && (st.procs[p].Writing? || st.procs[p].Holding?) {
      assert ProcOk(st, l.p);
      StepElsewhere(st, l, st.procs[p].inode);
    }
  }

  lemma OwnStepSigns(st: State, l: Label, p: nat, written: nat)
    requires Inv(st) && Enabled(st, l) && OpsWork(l) && p < |st.procs| && SignedSoFar(st, p, written)
    requires !l.Delete? && l.p == p
    ensures p < |Next(st, l).procs|
    ensures SignedSoFar(Next(st, l), p, written + if l.WriteSome? then l.count else 0)
  {
    if l.WriteSome? {
      WritingOn(p, written, l.count);
    } else if l.Truncate? {
      assert Note(p, 0) == [];
    }
  }

  lemma StepSigns(st: State, l: Label, p: nat, written: nat)
    requires Inv(st) && Enabled(st, l) && OpsWork(l) && p < |st.procs| && SignedSoFar(st, p, written)
    ensures p < |Next(st, l).procs|
    ensures SignedSoFar(Next(st, l), p, written + if l.WriteSome? && l.p == p then l.count else 0)
  {
    if l.Delete? || l.p != p {
      OthersKeepSigned(st, l, p, written);
    } else {
      OwnStepSigns(st, l, p, written);
    }
  }

  lemma {:induction false} HoldersNoteIsWhatItWrote(states: seq<State>, labels: seq<Label>, n: nat, p: nat)
    requires Run(states, labels) && n < |states| && p < |states[0].procs|
    requires forall m :: 0 <= m < n ==> OpsWork(labels[m])
    ensures p < |states[n].procs| && SignedSoFar(states[n], p, BytesWritten(labels, n, p))
  {
    if n == 0 {
    } else {
      RunKeepsInv(states, labels, n - 1);
      HoldersNoteIsWhatItWrote(states, labels, n - 1, p);
      StepSigns(states[n - 1], labels[n - 1], p, BytesWritten(labels, n - 1, p));
      assert states[n - 1 + 1] == Next(states[n - 1], labels[n - 1]);
    }
  }

  /** Whoever asks while a process holds the rig, or is still signing, is told that
      process's own note, as far as it has been written, and nothing else. */
  lemma ToldTheHoldersNote(states: seq<State>, labels: seq<Label>, n: nat, p: nat)
    requires Run(states, labels) && n < |labels| && labels[n].ReadNote?
    requires forall m :: 0 <= m < n ==> OpsWork(labels[m])
    requires p < |states[n].procs| && states[n].path.Some? && Signed(states[n].procs[p], states[n].path.value)
    ensures labels[n].p < |states[n + 1].procs|
    ensures states[n + 1].procs[labels[n].p] == Told(Note(p, BytesWritten(labels, n, p)))
  {
    ProcsStay(states, labels, n);
    HoldersNoteIsWhatItWrote(states, labels, n, p);
    assert states[n + 1] == Next(states[n], labels[n]);
  }

  /** A contender whose deadline has passed, and a probe that finds the rig held, go on
      to read the note and cannot end otherwise than told, unless they crash; an
      error, or a free rig, tells of nobody. */
  lemma AskersAreTold(states: seq<State>, labels: seq<Label>, n: nat, p: nat)
    requires Run(states, labels) && n < |labels| && p < |states[n].procs|
    ensures p < |states[n + 1].procs|
    ensures !states[n].procs[p].Asking? ==>
              (states[n + 1].procs[p].Asking? <==>
                 || labels[n] == GiveUp(p, false)
                 || (labels[n] == Probe(p) && states[n].path.Some?
                     && exists q :: 0 <= q < |states[n].procs| && Has(states[n].procs[q], states[n].path.value)))
    ensures states[n].procs[p].Asking? ==>
              var to := states[n + 1].procs[p];
              (to.Told? <==> labels[n] == ReadNote(p)) && (to.Crashed? <==> labels[n] == Crash(p))
              && (to.Told? || to.Crashed? || to.Asking?)
  {
    assert states[n + 1] == Next(states[n], labels[n]);
    if labels[n] == Probe(p) {
      ProbeIsHonest(states, labels, n);
    }
  }

  // ---------------------------------------------------------------------
  // One process's view.
  // ---------------------------------------------------------------------

  const POLL: nat := 200_000_000

  datatype Outcome = Taken | Contended | IoError

  /** A file signed by `p`: truncated if that worked, then `count` bytes of the note
      written from the start. */
  function Signing(text: seq<Mark>, p: nat, cleared: bool, count: nat): seq<Mark> {
    Overwrite(if cleared then [] else text, 0, Note(p, count))
  }

  /** It reads as the note alone exactly if the truncation worked or the note written
      covers what was there. */
  lemma StaleTailIff(text: seq<Mark>, p: nat, cleared: bool, count: nat)
    ensures Signing(text, p, cleared, count) == Note(p, count) <==> cleared || |text| <= count
    ensures !cleared && |text| > count ==> Signing(text, p, cleared, count) == Note(p, count) + text[count..]
  {
  }

  /** The step system's truncate and write of a fresh holder are `Take`'s. */
  lemma TakeIsItsSteps(st: State, p: nat, cleared: bool, count: nat)
    requires p < |st.procs| && st.procs[p].Locked? && st.procs[p].inode < |st.inodes|
    ensures Enabled(st, Truncate(p, cleared))
    ensures Enabled(Next(st, Truncate(p, cleared)), WriteSome(p, count))
    ensures var wrote := Next(Next(st, Truncate(p, cleared)), WriteSome(p, count)); var i := st.procs[p].inode;
            && Enabled(wrote, Ready(p))
            && Next(wrote, Ready(p))
               == Go(Rewrite(st, i, Signing(st.inodes[i].content, p, cleared, count)), p, Holding(i))
  {
    var i := st.procs[p].inode;
    var text := if cleared then [] else st.inodes[i].content;
    assert Note(p, 0 + count)[0..] == Note(p, count);
    assert Next(st, Truncate(p, cleared)).inodes[i].content == text;
    assert Next(Next(st, Truncate(p, cleared)), WriteSome(p, count)).inodes
           == st.inodes[i := st.inodes[i].(content := Signing(st.inodes[i].content, p, cleared, count))];
  }

  /** And its erase and unlock are `Release`'s. */
  lemma ReleaseIsItsSteps(st: State, p: nat, cleared: bool)
    requires p < |st.procs| && st.procs[p].Holding? && st.procs[p].inode < |st.inodes|
    ensures Enabled(st, Erase(p, cleared)) && Enabled(Next(st, Erase(p, cleared)), Unlock(p))
    ensures var i := st.procs[p].inode; var text := if cleared then [] else st.inodes[i].content;
            Next(Next(st, Erase(p, cleared)), Unlock(p)) == Go(Relock(Rewrite(st, i, text), i, None), p, Done)
  {
    var i := st.procs[p].inode; var text := if cleared then [] else st.inodes[i].content;
    assert Next(Next(st, Erase(p, cleared)), Unlock(p)).inodes == Relock(Rewrite(st, i, text), i, None).inodes;
  }

  /** The open lock file in one process's hands. */
  class LockFile {
    const me: nat
    const noteLength: nat
    var content: seq<Mark>
    var held: bool

    constructor (me: nat, noteLength: nat, content: seq<Mark>)
      ensures !held && this.content == content && this.me == me && this.noteLength == noteLength
    {
      this.me, this.noteLength := me, noteLength;
      this.content := content;
      held := false;
    }

    /** `RigLock::take`'s loop. `free(k)` is what try `k` found, `None` for an error.
        Only a successful try touches the note; contention is only reported past
        the deadline. `cleared`: the truncation works; `wrote`: how many bytes the
        write of the note gets out. */
    method Take(start: nat, timeout: nat, free: nat -> Option<bool>, clock: nat -> nat, cleared: bool, wrote: nat)
      returns (out: Outcome, tries: nat)
      requires !held && Retry.Paced(clock, start, POLL)
      modifies this
      ensures tries >= 1 && forall k :: 0 <= k < tries - 1 ==> free(k) == Some(false) && clock(k) < start + timeout
      ensures match free(tries - 1)
              case Some(true) =>
                out == Taken && held && content == Signing(old(content), me, cleared, Min(wrote, noteLength))
              case Some(false) => out == Contended && clock(tries - 1) >= start + timeout
              case None => out == IoError
      ensures out != Taken ==> !held && content == old(content)
      ensures tries <= Retry.CeilDiv(timeout, POLL) + 1
    {
      var deadline := start + timeout;
      tries := 0;
      while true
        invariant forall k :: 0 <= k < tries ==> free(k) == Some(false) && clock(k) < deadline
        invariant tries <= Retry.CeilDiv(timeout, POLL)
        invariant !held && content == old(content)
        decreases deadline - clock(tries)
      {
        tries := tries + 1;
        var got := free(tries - 1);
        if got.None? {
          return IoError, tries;
        }
        if got.value {
          held := true;
          if cleared {
            content := [];
          }
          content := Overwrite(content, 0, Note(me, Min(wrote, noteLength)));
          return Taken, tries;
        }
        if clock(tries - 1) >= deadline {
          return Contended, tries;
        }
        Retry.TriesAreBounded(clock, start, POLL, timeout, tries - 1);
        assert clock(tries - 1) + POLL <= clock(tries - 1 + 1);
      }
    }

    /** `Drop`: erase the note, then release. */
    method Release(cleared: bool)
      requires held
      modifies this
      ensures !held && content == if cleared then [] else old(content)
    {
      if cleared {
        content := [];
      }
      held := false;
    }
  }
}
