/**
 Callers of the buffer cache in every interleaving: bread, changes to a locked buffer, bwrite,
 log_write, the unpinning done by a commit, brelse.  A reference is one bget that has not been
 released yet; it waits for the buffer's sleep lock, owns it, or has let go of it and is about to be counted down.
 */
module BioRuns {

  datatype Key = Key(dev: nat, bno: nat)
  type Data = seq<int>
  datatype Owner = Free | Locked(who: nat)

  /** `changed` is history: the owner has altered the data since it last wrote or logged it. */
  datatype Buf = Buf(key: Key, valid: bool, refcnt: int, data: Data, owner: Owner, changed: bool)
  datatype Ref = Ref(buf: int, key: Key, leaving: bool)

  /** `latest` and `at` are history: the last contents given to each block, and where it is cached. */
  datatype State = State(bufs: seq<Buf>, disk: map<Key, Data>, log: set<Key>, refs: map<nat, Ref>,
                         latest: map<Key, Data>, at: map<Key, int>)

  ghost predicate Init(s: State) {
    && (forall i :: 0 <= i < |s.bufs| ==>
          && s.bufs[i].key == Key(0, 0) && !s.bufs[i].valid && s.bufs[i].refcnt == 0
          && s.bufs[i].owner == Free && !s.bufs[i].changed)
    && (forall k :: k in s.disk ==> k.dev != 0)
    && s.log == {} && s.refs == map[] && s.latest == s.disk && s.at == map[]
  }

  // ----- Steps

  ghost predicate BgetHit(s: State, t: State, r: nat, k: Key, i: int) {
    && r !in s.refs && k in s.disk && 0 <= i < |s.bufs| && s.bufs[i].key == k
    && t == s.(bufs := s.bufs[i := s.bufs[i].(refcnt := s.bufs[i].refcnt + 1)],
               refs := s.refs[r := Ref(i, k, false)])
  }

  /** Any buffer without references may be the least recently used one. */
  ghost predicate BgetMiss(s: State, t: State, r: nat, k: Key, i: int) {
    && r !in s.refs && k in s.disk
    && (forall j :: 0 <= j < |s.bufs| ==> s.bufs[j].key != k)
    && 0 <= i < |s.bufs| && s.bufs[i].refcnt == 0
    && t == s.(bufs := s.bufs[i := s.bufs[i].(key := k, valid := false, refcnt := 1)],
               refs := s.refs[r := Ref(i, k, false)],
               at := (s.at - {s.bufs[i].key})[k := i])
  }

  ghost predicate AcquireSleep(s: State, t: State, r: nat, i: int) {
    && r in s.refs && s.refs[r].buf == i && !s.refs[r].leaving && 0 <= i < |s.bufs| && s.bufs[i].owner == Free
    && t == s.(bufs := s.bufs[i := s.bufs[i].(owner := Locked(r))])
  }

  /** r has the buffer's sleep lock. */
  ghost predicate Owns(s: State, r: nat, i: int) {
    && r in s.refs && s.refs[r].buf == i && 0 <= i < |s.bufs| && s.bufs[i].owner == Locked(r)
    && s.refs[r].key in s.disk
  }

  /** bread fills a buffer that is not valid. */
  ghost predicate ReadIn(s: State, t: State, r: nat, i: int) {
    && Owns(s, r, i) && !s.bufs[i].valid
    && t == s.(bufs := s.bufs[i := s.bufs[i].(valid := true, data := s.disk[s.refs[r].key])])
  }

  /** bread has returned buffer i to r. */
  ghost predicate HasBuffer(s: State, r: nat, i: int) {
    Owns(s, r, i) && s.bufs[i].valid
  }

  ghost predicate Modify(s: State, t: State, r: nat, i: int, v: Data) {
    && HasBuffer(s, r, i)
    && t == s.(bufs := s.bufs[i := s.bufs[i].(data := v, changed := true)],
               latest := s.latest[s.refs[r].key := v])
  }

  ghost predicate Bwrite(s: State, t: State, r: nat, i: int) {
    && HasBuffer(s, r, i)
    && t == s.(bufs := s.bufs[i := s.bufs[i].(changed := false)],
               disk := s.disk[s.refs[r].key := s.bufs[i].data])
  }

  ghost predicate LogWrite(s: State, t: State, r: nat, i: int) {
    && HasBuffer(s, r, i)
    && var pin := if s.refs[r].key in s.log then 0 else 1;
       t == s.(bufs := s.bufs[i := s.bufs[i].(refcnt := s.bufs[i].refcnt + pin, changed := false)],
               log := s.log + {s.refs[r].key})
  }

  /** bunpin, after install_trans has written the block home. */
  ghost predicate Unpin(s: State, t: State, r: nat, i: int) {
    && HasBuffer(s, r, i) && s.refs[r].key in s.log
    && s.disk[s.refs[r].key] == s.bufs[i].data
    && t == s.(bufs := s.bufs[i := s.bufs[i].(refcnt := s.bufs[i].refcnt - 1)],
               log := s.log - {s.refs[r].key})
  }

  /** brelse, up to its releasesleep, by a caller that has passed its changes to bwrite or log_write. */
  ghost predicate ReleaseSleep(s: State, t: State, r: nat, i: int) {
    && HasBuffer(s, r, i) && !s.bufs[i].changed
    && t == s.(bufs := s.bufs[i := s.bufs[i].(owner := Free)], refs := s.refs[r := s.refs[r].(leaving := true)])
  }

  /** The rest of brelse, under bcache.lock. */
  ghost predicate Drop(s: State, t: State, r: nat, i: int) {
    && r in s.refs && s.refs[r].buf == i && s.refs[r].leaving && 0 <= i < |s.bufs|
    && t == s.(bufs := s.bufs[i := s.bufs[i].(refcnt := s.bufs[i].refcnt - 1)], refs := s.refs - {r})
  }

  ghost predicate Next(s: State, t: State) {
    || (exists r, k, i :: BgetHit(s, t, r, k, i))
    || (exists r, k, i :: BgetMiss(s, t, r, k, i))
    || (exists r, i :: AcquireSleep(s, t, r, i))
    || (exists r, i :: ReadIn(s, t, r, i))
    || (exists r, i, v :: Modify(s, t, r, i, v))
    || (exists r, i :: Bwrite(s, t, r, i))
    || (exists r, i :: LogWrite(s, t, r, i))
    || (exists r, i :: Unpin(s, t, r, i))
    || (exists r, i :: ReleaseSleep(s, t, r, i))
    || (exists r, i :: Drop(s, t, r, i))
  }

  ghost predicate IsRun(run: seq<State>) {
    && |run| > 0 && Init(run[0])
    && (forall i :: 0 <= i < |run| - 1 ==> Next(run[i], run[i + 1]))
  }

  // ----- The invariant

  /** References to buffer i: its owner, those waiting for it, and those that have let go of its lock. */
  ghost function Users(refs: map<nat, Ref>, i: int): (u: set<nat>) {
    set r | r in refs && refs[r].buf == i
  }

  ghost predicate RefOk(s: State, r: nat)
    requires r in s.refs
  {
    && 0 <= s.refs[r].buf < |s.bufs| && s.bufs[s.refs[r].buf].key == s.refs[r].key
    && s.refs[r].key in s.disk
  }

  /** What holds of each buffer; for a cached block, what its data and its disk copy are. */
  ghost predicate BufOk(s: State, i: int)
    requires 0 <= i < |s.bufs|
  {
    var b := s.bufs[i];
    && (b.owner.Locked? ==> b.owner.who in s.refs && s.refs[b.owner.who].buf == i && !s.refs[b.owner.who].leaving)
    && (b.changed ==> b.valid && b.owner.Locked?)
    && b.refcnt == |Users(s.refs, i)| + (if b.key in s.log then 1 else 0)
    && (b.key == Key(0, 0) ==> !b.valid)
    && (b.key != Key(0, 0) ==>
          && b.key in s.disk && b.key in s.latest && b.key in s.at && s.at[b.key] == i
          && (b.valid ==> b.data == s.latest[b.key])
          && (!b.valid ==> b.key !in s.log)
          && (b.key !in s.log && !b.changed ==> s.disk[b.key] == s.latest[b.key]))
  }

  ghost predicate KeyOk(s: State, k: Key) {
    && (k in s.at ==> k in s.disk && 0 <= s.at[k] < |s.bufs| && s.bufs[s.at[k]].key == k)
    && (k in s.log ==> k in s.at)
    && (k in s.disk ==> k.dev != 0 && k in s.latest)
    && (k in s.disk && k !in s.at ==> s.disk[k] == s.latest[k])
  }

  ghost predicate Inv(s: State) {
    && (forall r :: r in s.refs ==> RefOk(s, r))
    && (forall i :: 0 <= i < |s.bufs| ==> BufOk(s, i))
    && (forall k :: KeyOk(s, k))
  }

  // ----- Preservation

  lemma UsersAdd(refs: map<nat, Ref>, r: nat, f: Ref, i: int)
    requires r !in refs
    ensures |Users(refs[r := f], i)| == |Users(refs, i)| + (if f.buf == i then 1 else 0)
  {
    var m := refs[r := f];
    if f.buf == i {
      assert Users(m, i) == Users(refs, i) + {r};
    } else {
      assert Users(m, i) == Users(refs, i);
    }
  }

  lemma UsersRemove(refs: map<nat, Ref>, r: nat, i: int)
    requires r in refs
    ensures |Users(refs - {r}, i)| == |Users(refs, i)| - (if refs[r].buf == i then 1 else 0)
  {
    if refs[r].buf == i {
      assert Users(refs, i) == Users(refs - {r}, i) + {r};
    } else {
      assert Users(refs, i) == Users(refs - {r}, i);
    }
  }

  lemma HitInv(s: State, t: State, r: nat, k: Key, i: int)
    requires Inv(s) && BgetHit(s, t, r, k, i)
    ensures Inv(t)
  {
    forall j | 0 <= j < |t.bufs| ensures BufOk(t, j) {
      UsersAdd(s.refs, r, Ref(i, k, false), j);
      assert BufOk(s, j);
    }
    forall q | q in t.refs ensures RefOk(t, q) {
      assert q != r ==> RefOk(s, q);
    }
    forall k' ensures KeyOk(t, k') {
      assert KeyOk(s, k');
    }
  }

  lemma MissInv(s: State, t: State, r: nat, k: Key, i: int)
    requires Inv(s) && BgetMiss(s, t, r, k, i)
    ensures Inv(t)
  {
    assert BufOk(s, i) && KeyOk(s, k) && KeyOk(s, s.bufs[i].key);
    assert Users(s.refs, i) == {} && s.bufs[i].key !in s.log;
    forall q | q in s.refs ensures s.refs[q].buf != i {
      assert q !in Users(s.refs, i);
    }
    assert s.bufs[i].owner == Free && !s.bufs[i].changed && k !in s.at && k !in s.log;
    forall j | 0 <= j < |t.bufs| ensures BufOk(t, j) {
      UsersAdd(s.refs, r, Ref(i, k, false), j);
      assert BufOk(s, j);
    }
    forall q | q in t.refs ensures RefOk(t, q) {
      if q != r {
        assert RefOk(s, q) && q !in Users(s.refs, i);
      }
    }
    forall k' ensures KeyOk(t, k') {
      assert KeyOk(s, k');
    }
  }

  /** A step by the owner r of buffer i that keeps references and keys. */
  lemma OwnerStepInv(s: State, t: State, r: nat, i: int)
    requires Inv(s) && 0 <= i < |s.bufs| && r in s.refs && s.refs[r].buf == i
    requires t.refs == s.refs && t.at == s.at && |t.bufs| == |s.bufs| && t.bufs == s.bufs[i := t.bufs[i]]
    requires t.bufs[i].key == s.bufs[i].key && t.disk.Keys == s.disk.Keys && s.latest.Keys <= t.latest.Keys
    requires forall k :: k != s.bufs[i].key ==>
               && (k in s.disk ==> t.disk[k] == s.disk[k]) && (k in s.latest ==> t.latest[k] == s.latest[k])
               && (k in t.log <==> k in s.log)
    requires BufOk(t, i)
    ensures Inv(t)
  {
    OwnerFacts(s, r, i);
    forall j | 0 <= j < |t.bufs| ensures BufOk(t, j) {
      assert BufOk(s, j) && KeyOk(s, s.bufs[j].key) && KeyOk(s, Key(0, 0));
      if j != i {
        assert t.bufs[j] == s.bufs[j];
        assert s.bufs[j].key != s.bufs[i].key;
      }
    }
    forall q | q in t.refs ensures RefOk(t, q) {
      assert RefOk(s, q);
    }
    forall k ensures KeyOk(t, k) {
      assert KeyOk(s, k);
      assert k == s.bufs[i].key ==> k in s.at;
    }
  }

  lemma ReleaseInv(s: State, t: State, r: nat, i: int)
    requires Inv(s) && ReleaseSleep(s, t, r, i)
    ensures Inv(t)
  {
    forall j | 0 <= j < |t.bufs| ensures BufOk(t, j) {
      assert Users(t.refs, j) == Users(s.refs, j);
      assert BufOk(s, j);
    }
    forall q | q in t.refs ensures RefOk(t, q) {
      assert RefOk(s, q);
    }
    forall k ensures KeyOk(t, k) {
      assert KeyOk(s, k);
    }
  }

  lemma DropInv(s: State, t: State, r: nat, i: int)
    requires Inv(s) && Drop(s, t, r, i)
    ensures Inv(t)
  {
    forall j | 0 <= j < |t.bufs| ensures BufOk(t, j) {
      UsersRemove(s.refs, r, j);
      assert BufOk(s, j);
    }
    forall q | q in t.refs ensures RefOk(t, q) {
      assert RefOk(s, q);
    }
    forall k ensures KeyOk(t, k) {
      assert KeyOk(s, k);
    }
  }

  lemma NextInv(s: State, t: State)
    requires Inv(s) && Next(s, t)
    ensures Inv(t)
  {
    if r, k, i :| BgetHit(s, t, r, k, i) {
      HitInv(s, t, r, k, i);
    } else if r, k, i :| BgetMiss(s, t, r, k, i) {
      MissInv(s, t, r, k, i);
    } else if r, i :| ReleaseSleep(s, t, r, i) {
      ReleaseInv(s, t, r, i);
    } else if r, i :| Drop(s, t, r, i) {
      DropInv(s, t, r, i);
    } else if r, i :| AcquireSleep(s, t, r, i) || ReadIn(s, t, r, i) {
      ReadSideInv(s, t, r, i);
    } else if r, i, v :| Modify(s, t, r, i, v) {
      ModifyInv(s, t, r, i, v);
    } else if r, i :| Bwrite(s, t, r, i) || LogWrite(s, t, r, i) || Unpin(s, t, r, i) {
      WriteSideInv(s, t, r, i);
    }
  }

  lemma ReadSideInv(s: State, t: State, r: nat, i: int)
    requires Inv(s) && (AcquireSleep(s, t, r, i) || ReadIn(s, t, r, i))
    ensures Inv(t)
  {
    OwnerFacts(s, r, i);
    OwnerStepInv(s, t, r, i);
  }

  lemma ModifyInv(s: State, t: State, r: nat, i: int, v: Data)
    requires Inv(s) && Modify(s, t, r, i, v)
    ensures Inv(t)
  {
    OwnerFacts(s, r, i);
    OwnerStepInv(s, t, r, i);
  }

  lemma WriteSideInv(s: State, t: State, r: nat, i: int)
    requires Inv(s) && (Bwrite(s, t, r, i) || LogWrite(s, t, r, i) || Unpin(s, t, r, i))
    ensures Inv(t)
  {
    OwnerFacts(s, r, i);
    OwnerStepInv(s, t, r, i);
  }

  lemma OwnerFacts(s: State, r: nat, i: int)
    requires Inv(s) && r in s.refs && s.refs[r].buf == i
    ensures RefOk(s, r) && BufOk(s, i) && KeyOk(s, s.bufs[i].key) && s.bufs[i].key == s.refs[r].key != Key(0, 0)
  {
  }

  lemma {:induction false} RunInv(run: seq<State>, i: nat)
    requires IsRun(run) && i < |run|
    ensures Inv(run[i])
  {
    if i == 0 {
      forall j | 0 <= j < |run[0].bufs| ensures Users(run[0].refs, j) == {} {}
    } else {
      RunInv(run, i - 1);
      NextInv(run[i - 1], run[i]);
    }
  }

  // ----- Theorems over all runs

  /** A buffer that bread has returned holds the block asked for and its latest contents. */
  lemma BreadReturnsLatest(run: seq<State>, n: nat, r: nat, i: int)
    requires IsRun(run) && n < |run| && HasBuffer(run[n], r, i)
    ensures var s := run[n]; var k := s.refs[r].key;
      s.bufs[i].key == k && k in s.latest && s.bufs[i].data == s.latest[k]
  {
    RunInv(run, n);
    assert RefOk(run[n], r) && BufOk(run[n], i);
    assert KeyOk(run[n], run[n].refs[r].key);
  }

  /** refcnt is the references not yet counted down plus one for a block in the log. */
  lemma RefcntCounts(run: seq<State>, n: nat, i: int)
    requires IsRun(run) && n < |run| && 0 <= i < |run[n].bufs|
    ensures var s := run[n];
      s.bufs[i].refcnt == |Users(s.refs, i)| + (if s.bufs[i].key in s.log then 1 else 0)
  {
    RunInv(run, n);
    assert BufOk(run[n], i);
  }

  /** Each block of a real device has at most one buffer. */
  lemma OneBufferPerBlock(run: seq<State>, n: nat, i: int, j: int)
    requires IsRun(run) && n < |run| && 0 <= i < j < |run[n].bufs| && run[n].bufs[i].key.dev != 0
    ensures run[n].bufs[i].key != run[n].bufs[j].key
  {
    RunInv(run, n);
    assert BufOk(run[n], i) && BufOk(run[n], j);
  }

  ghost predicate PinnedAs(b: Buf, k: Key) {
    b.key == k && b.valid && b.refcnt >= 1
  }

  /** A logged block is cached and valid, and no step recycles its buffer while it is logged. */
  lemma LoggedStaysCached(run: seq<State>, n: nat, k: Key)
    requires IsRun(run) && n + 1 < |run| && k in run[n].log
    ensures exists i :: 0 <= i < |run[n].bufs| && PinnedAs(run[n].bufs[i], k)
    ensures k in run[n + 1].log ==> k in run[n + 1].at && run[n + 1].at[k] == run[n].at[k]
  {
    var s, t := run[n], run[n + 1];
    RunInv(run, n);
    assert KeyOk(s, k) && BufOk(s, s.at[k]) && KeyOk(s, Key(0, 0));
    assert PinnedAs(s.bufs[s.at[k]], k);
    assert Next(s, t);
    if r, k', i :| BgetMiss(s, t, r, k', i) {
      assert BufOk(s, i);
    }
  }

  /** A block that is neither logged nor being changed is on the disk in its latest form. */
  lemma SavedIsOnDisk(run: seq<State>, n: nat, k: Key)
    requires IsRun(run) && n < |run| && k in run[n].disk && k !in run[n].log
    requires forall i :: 0 <= i < |run[n].bufs| && run[n].bufs[i].key == k ==> !run[n].bufs[i].changed
    ensures k in run[n].latest && run[n].disk[k] == run[n].latest[k]
  {
    var s := run[n];
    RunInv(run, n);
    assert KeyOk(s, k);
    if k in s.at {
      assert BufOk(s, s.at[k]);
    }
  }

  // ----- A caller on its own

  /** v is s with buffer i, of block k, in r's hands. */
  ghost predicate Got(s: State, v: State, r: nat, k: Key, i: int) {
    && HasBuffer(v, r, i) && v.refs == s.refs[r := Ref(i, k, false)] && k in v.at && v.at[k] == i
    && v.bufs[i].key == k && k in s.latest && v.bufs[i].data == s.latest[k]
    && v.disk == s.disk && v.log == s.log && v.latest == s.latest
  }

  /** And no other change: the block was cached already. */
  ghost predicate GotAsIs(s: State, v: State, r: nat, i: int)
    requires 0 <= i < |s.bufs|
  {
    v.bufs == s.bufs[i := s.bufs[i].(refcnt := s.bufs[i].refcnt + 1, owner := Locked(r))] && v.at == s.at
  }

  /** bread on its own returns the block's latest contents, if the block's buffer is not locked or, when it has none,
      some buffer has no references. */
  lemma BreadAlone(s: State, r: nat, k: Key) returns (t: State, u: State, v: State, i: int)
    requires Inv(s) && r !in s.refs && k in s.disk
    requires if k in s.at then 0 <= s.at[k] < |s.bufs| && s.bufs[s.at[k]].owner == Free
             else exists j :: 0 <= j < |s.bufs| && s.bufs[j].refcnt == 0
    ensures Got(s, v, r, k, i)
    ensures k in s.at && s.bufs[s.at[k]].valid ==> 0 <= i < |s.bufs| && GotAsIs(s, v, r, i)
    ensures Next(s, t) && Next(t, u) && (v == u || Next(u, v))
  {
    hide Next;
    assert KeyOk(s, k);
    t, i := Looked(s, r, k);
    u := t.(bufs := t.bufs[i := t.bufs[i].(owner := Locked(r))]);
    StepAcquire(t, u, r, i);
    NextInv(s, t);
    NextInv(t, u);
    v := u;
    if !u.bufs[i].valid {
      v := u.(bufs := u.bufs[i := u.bufs[i].(valid := true, data := u.disk[k])]);
      StepRead(u, v, r, i);
      NextInv(u, v);
    }
    OwnerFacts(v, r, i);
  }

  lemma Looked(s: State, r: nat, k: Key) returns (t: State, i: int)
    requires Inv(s) && r !in s.refs && k in s.disk
    requires if k in s.at then 0 <= s.at[k] < |s.bufs| && s.bufs[s.at[k]].owner == Free
             else exists j :: 0 <= j < |s.bufs| && s.bufs[j].refcnt == 0
    ensures 0 <= i < |t.bufs| && t.bufs[i].key == k && t.bufs[i].owner == Free
    ensures t.refs == s.refs[r := Ref(i, k, false)] && t.disk == s.disk && t.log == s.log && t.latest == s.latest
    ensures k in t.at && t.at[k] == i
    ensures k in s.at ==>
              |t.bufs| == |s.bufs| && t.bufs == s.bufs[i := s.bufs[i].(refcnt := s.bufs[i].refcnt + 1)] && t.at == s.at
    ensures Next(s, t)
  {
    assert KeyOk(s, k);
    if k in s.at {
      i := s.at[k];
      t := s.(bufs := s.bufs[i := s.bufs[i].(refcnt := s.bufs[i].refcnt + 1)], refs := s.refs[r := Ref(i, k, false)]);
      assert BgetHit(s, t, r, k, i);
    } else {
      i :| 0 <= i < |s.bufs| && s.bufs[i].refcnt == 0;
      forall j | 0 <= j < |s.bufs| ensures s.bufs[j].key != k {
        assert BufOk(s, j);
      }
      t := s.(bufs := s.bufs[i := s.bufs[i].(key := k, valid := false, refcnt := 1)],
              refs := s.refs[r := Ref(i, k, false)], at := (s.at - {s.bufs[i].key})[k := i]);
      assert BgetMiss(s, t, r, k, i);
      Unused(s, i);
    }
  }

  /** A buffer with no references is not locked. */
  lemma Unused(s: State, i: int)
    requires Inv(s) && 0 <= i < |s.bufs| && s.bufs[i].refcnt == 0
    ensures s.bufs[i].owner == Free
  {
    assert BufOk(s, i);
    assert |Users(s.refs, i)| == 0;
    forall w | w in s.refs ensures s.refs[w].buf != i {
      assert w !in Users(s.refs, i);
    }
  }

  lemma StepAcquire(t: State, u: State, r: nat, i: int)
    requires AcquireSleep(t, u, r, i)
    ensures Next(t, u)
  {
  }

  lemma StepRead(t: State, u: State, r: nat, i: int)
    requires ReadIn(t, u, r, i)
    ensures Next(t, u)
  {
  }

  /** brelse gives the buffer up; what its caller holds stays as it is for everybody else. */
  lemma BrelseAlone(s: State, r: nat, i: int) returns (t: State, u: State)
    requires HasBuffer(s, r, i) && !s.bufs[i].changed
    ensures u.refs == s.refs - {r}
    ensures u == s.(refs := u.refs, bufs := s.bufs[i := s.bufs[i].(owner := Free, refcnt := s.bufs[i].refcnt - 1)])
    ensures Next(s, t) && Next(t, u)
  {
    t := s.(bufs := s.bufs[i := s.bufs[i].(owner := Free)], refs := s.refs[r := s.refs[r].(leaving := true)]);
    assert ReleaseSleep(s, t, r, i);
    u := t.(bufs := t.bufs[i := t.bufs[i].(refcnt := t.bufs[i].refcnt - 1)], refs := t.refs - {r});
    assert Drop(t, u, r, i);
    assert u.refs == s.refs - {r};
    assert u.bufs == s.bufs[i := s.bufs[i].(owner := Free, refcnt := s.bufs[i].refcnt - 1)];
  }

  /** A change that is written through and released is on the disk, and the buffer is free again. */
  lemma WriteThrough(s: State, r: nat, i: int, v: Data) returns (t: State, u: State, w: State, x: State)
    requires HasBuffer(s, r, i)
    ensures var k := s.refs[r].key;
      && x.disk == s.disk[k := v] && x.latest == s.latest[k := v] && x.refs == s.refs - {r} && x.log == s.log
      && x.bufs == s.bufs[i := s.bufs[i].(data := v, changed := false, owner := Free, refcnt := s.bufs[i].refcnt - 1)]
    ensures Next(s, t) && Next(t, u) && Next(u, w) && Next(w, x)
  {
    hide Next;
    var k := s.refs[r].key;
    t := s.(bufs := s.bufs[i := s.bufs[i].(data := v, changed := true)], latest := s.latest[k := v]);
    StepModify(s, t, r, i, v);
    u := t.(bufs := t.bufs[i := t.bufs[i].(changed := false)], disk := t.disk[k := v]);
    StepWrite(t, u, r, i);
    w, x := BrelseAlone(u, r, i);
  }

  lemma StepModify(s: State, t: State, r: nat, i: int, v: Data)
    requires Modify(s, t, r, i, v)
    ensures Next(s, t)
  {
  }

  lemma StepWrite(s: State, t: State, r: nat, i: int)
    requires Bwrite(s, t, r, i)
    ensures Next(s, t)
  {
  }

  /** Reading a cached block and releasing it leaves everything as it was. */
  lemma ReadAndRelease(s: State, r: nat, k: Key) returns (run: seq<State>)
    requires Inv(s) && r !in s.refs && k in s.disk && k in s.at && 0 <= s.at[k] < |s.bufs|
    requires s.bufs[s.at[k]].owner == Free && s.bufs[s.at[k]].valid
    ensures |run| > 0 && run[0] == s == run[|run| - 1] && forall j :: 0 <= j < |run| - 1 ==> Next(run[j], run[j + 1])
    ensures exists j :: 0 <= j < |run| && HasBuffer(run[j], r, s.at[k])
  {
    hide Next;
    assert BufOk(s, s.at[k]) && KeyOk(s, k);
    var t, u, v, i := BreadAlone(s, r, k);
    var w, x := BrelseAlone(v, r, i);
    assert x.refs == s.refs;
    assert x.bufs[i] == s.bufs[i];
    assert x.bufs == s.bufs;
    run := if v == u then [s, t, u, w, x] else [s, t, u, v, w, x];
    assert HasBuffer(run[if v == u then 2 else 3], r, s.at[k]);
  }

  // ----- A run

  /** Runs reach a buffer in use and a block pinned by the log. */
  lemma SomeRun() returns (run: seq<State>)
    ensures IsRun(run) && |run| == 8 && HasBuffer(run[3], 0, 0)
    ensures run[7].log == {Key(1, 5)} && run[7].refs == map[]
      && run[7].bufs == [Buf(Key(1, 5), true, 1, [8], Free, false)]
  {
    hide Init, Next, HasBuffer;
    var k, b := Key(1, 5), Buf(Key(0, 0), false, 0, [], Free, false);
    var s0 := State([b], map[k := [7]], {}, map[], map[k := [7]], map[]);
    var s1 := s0.(bufs := [b.(key := k, refcnt := 1)], refs := map[0 := Ref(0, k, false)], at := map[k := 0]);
    var s2 := s1.(bufs := [s1.bufs[0].(owner := Locked(0))]);
    var s3 := s2.(bufs := [s2.bufs[0].(valid := true, data := [7])]);
    var s4 := s3.(bufs := [s3.bufs[0].(data := [8], changed := true)], latest := map[k := [8]]);
    var s5 := s4.(bufs := [s4.bufs[0].(refcnt := 2, changed := false)], log := {k});
    var s6 := s5.(bufs := [s5.bufs[0].(owner := Free)], refs := map[0 := Ref(0, k, true)]);
    var s7 := s6.(bufs := [s6.bufs[0].(refcnt := 1)], refs := map[]);
    FirstSteps(s0, s1, s2, s3);
    LastSteps(s3, s4, s5, s6, s7);
    run := [s0, s1, s2, s3, s4, s5, s6, s7];
  }

  lemma FirstSteps(s0: State, s1: State, s2: State, s3: State)
    requires var k, b := Key(1, 5), Buf(Key(0, 0), false, 0, [], Free, false);
      && s0 == State([b], map[k := [7]], {}, map[], map[k := [7]], map[])
      && s1 == s0.(bufs := [b.(key := k, refcnt := 1)], refs := map[0 := Ref(0, k, false)], at := map[k := 0])
      && s2 == s1.(bufs := [s1.bufs[0].(owner := Locked(0))])
      && s3 == s2.(bufs := [s2.bufs[0].(valid := true, data := [7])])
    ensures Init(s0) && Next(s0, s1) && Next(s1, s2) && Next(s2, s3) && HasBuffer(s3, 0, 0)
  {
    assert BgetMiss(s0, s1, 0, Key(1, 5), 0) by {
      assert s0.at - {Key(0, 0)} == map[];
    }
    assert AcquireSleep(s1, s2, 0, 0);
    assert ReadIn(s2, s3, 0, 0);
  }

  lemma LastSteps(s3: State, s4: State, s5: State, s6: State, s7: State)
    requires HasBuffer(s3, 0, 0) && |s3.bufs| == 1 && s3.bufs[0].refcnt == 1 && !s3.bufs[0].changed
    requires s3.refs == map[0 := Ref(0, Key(1, 5), false)] && s3.log == {} && s3.latest.Keys == {Key(1, 5)}
    requires s4 == s3.(bufs := [s3.bufs[0].(data := [8], changed := true)], latest := map[Key(1, 5) := [8]])
    requires s5 == s4.(bufs := [s4.bufs[0].(refcnt := 2, changed := false)], log := {Key(1, 5)})
    requires s6 == s5.(bufs := [s5.bufs[0].(owner := Free)], refs := map[0 := Ref(0, Key(1, 5), true)])
    requires s7 == s6.(bufs := [s6.bufs[0].(refcnt := 1)], refs := map[])
    ensures Next(s3, s4) && Next(s4, s5) && Next(s5, s6) && Next(s6, s7)
  {
    assert s3.latest[Key(1, 5) := [8]] == s4.latest;
    assert Modify(s3, s4, 0, 0, [8]);
    assert s4.log + {Key(1, 5)} == s5.log;
    assert LogWrite(s4, s5, 0, 0);
    assert ReleaseSleep(s5, s6, 0, 0);
    assert s6.refs - {0} == map[];
    assert Drop(s6, s7, 0, 0);
  }
}
