/** The uploader's sequential code as it runs in place (swift_large_object.go): the writer's buffer
    and counters, a worker's retry loop and the abort loop. What the other goroutines do in between
    is in module Uploader; here they are the arguments. */
module LargeObject {
  import opened Common
  import opened Segmenter
  import opened SegmentNames
  import opened Text
  import Uploader

  /** bytes.Buffer: a part and the pool hold references to it. */
  class Buffer {
    var bytes: seq<byte>

    constructor ()
      ensures bytes == []
    {
      bytes := [];
    }

    method Reset()
      modifies this
      ensures bytes == []
    {
      bytes := [];
    }

    method Write(b: seq<byte>)
      modifies this
      ensures bytes == old(bytes) + b
    {
      bytes := bytes + b;
    }
  }

  /** A part refers to the writer's buffer and does not copy it. */
  datatype Part = Part(number: nat, b: Buffer, etag: string)

  class LargeObject {
    const objectName: string
    const timestamp: string
    var bufsz: nat
    var buf: Buffer?
    var part: nat
    /** The parts sent whose workers have not given their buffers back yet. */
    var sent: seq<Part>
    var closed: bool
    var err: bool
    ghost var segments: seq<Segment>

    ghost function View(): Cutter
      reads this, buf
    {
      Cutter(bufsz, if buf == null then [] else buf.bytes, segments)
    }

    ghost predicate Carries(p: Part)
      reads this, p.b
    {
      1 <= p.number <= |segments| && p.b.bytes == segments[p.number - 1].data
    }

    /** Every part on its way holds the bytes that were cut for it, in a buffer of its own. */
    ghost predicate Valid()
      reads this, set p | p in sent :: p.b
    {
      && part == |segments|
      && (forall i :: 0 <= i < |sent| ==> Carries(sent[i]) && sent[i].b != buf)
      && (forall i, j :: 0 <= i < j < |sent| ==> sent[i].b != sent[j].b)
    }

    /** The pool may hand over any buffer that is not in use, recycled or new. */
    ghost predicate IsFree(b: Buffer)
      reads this
    {
      b != buf && forall i :: 0 <= i < |sent| ==> sent[i].b != b
    }

    constructor (objectName: string, timestamp: string, partSize: int)
      ensures Valid() && View() == Start(partSize) && sent == [] && !closed && !err
      ensures this.objectName == objectName && this.timestamp == timestamp
    {
      this.objectName, this.timestamp := objectName, timestamp;
      bufsz := Max(MIN_PART_SIZE, partSize);
      buf := null;
      part := 0;
      closed, err := false, false;
      sent := [];
      segments := [];
    }

    /** `got` is what the pool hands over when asked; the other arguments are those of abort, which a
        refused write calls. */
    method Write(b: seq<byte>, got: Buffer, etag: seq<byte> -> string,
                 names: seq<string>, container: map<string, seq<byte>>, fails: nat -> bool)
      returns (n: nat, ok: bool, after: map<string, seq<byte>>)
      requires Valid() && (buf == null ==> IsFree(got))
      modifies this, buf, got
      ensures Valid() && ok == !old(closed || err) && n == (if ok then |b| else 0)
      ensures closed == old(closed) && err == old(err)
      ensures if ok then after == container else Aborted(objectName, timestamp, names, container, fails, after)
      ensures View() == if ok then Accept(old(View()), b) else old(View())
      ensures old(buf) != null && old(buf) != got ==> unchanged(got)
      ensures forall i :: 0 <= i < |old(sent)| ==> unchanged(old(sent)[i].b)
      ensures if |segments| == |old(segments)| then sent == old(sent)
              else |sent| == |old(sent)| + 1 && sent[..|old(sent)|] == old(sent)
                   && sent[|old(sent)|].number == part && sent[|old(sent)|].etag == etag(segments[part - 1].data)
      ensures buf == null || buf == old(buf) || buf == got
    {
      if closed {
        after := Abort(objectName, timestamp, names, container, fails);
        return 0, false, after;
      }
      if err {
        after := Abort(objectName, timestamp, names, container, fails);
        return 0, false, after;
      }
      if buf == null {
        buf := got;
        buf.Reset();
      }
      buf.Write(b);
      if |buf.bytes| >= bufsz {
        Flush(|b|, etag);
      }
      return |b|, true, container;
    }

    method Flush(ghost cause: nat, etag: seq<byte> -> string)
      requires Valid() && buf != null
      modifies this
      ensures Valid() && View() == Cut(old(View()), cause)
      ensures closed == old(closed) && err == old(err)
      ensures buf == null && sent == old(sent) + [Part(part, old(buf), etag(old(buf.bytes)))]
      ensures part == old(part) + 1
      ensures segments == old(segments) + [Segment(old(buf.bytes), cause)]
    {
      part := part + 1;
      sent := sent + [Part(part, buf, etag(buf.bytes))];
      segments := segments + [Segment(buf.bytes, cause)];
      buf := null;
      if part % PARTS_PER_DOUBLING == 0 {
        bufsz := Min(bufsz * 2, MAX_PART_SIZE);
      }
    }

    /** The first half of Close: a last part for what is still in the buffer. */
    method FlushRest(etag: seq<byte> -> string)
      requires Valid() && !closed
      modifies this
      ensures Valid() && View() == Finish(old(View()))
      ensures if |segments| == |old(segments)| then sent == old(sent)
              else old(buf) != null && sent == old(sent) + [Part(part, old(buf), etag(old(buf.bytes)))]
    {
      if buf != null && |buf.bytes| > 0 {
        Flush(0, etag);
      }
    }

    /** A worker is done with its part. Nobody else uses the buffer, so the pool may hand it over. */
    method Release(i: nat) returns (b: Buffer)
      requires Valid() && i < |sent|
      modifies `sent
      ensures Valid() && View() == old(View())
      ensures b == old(sent[i].b) && IsFree(b)
      ensures sent == old(sent[..i] + sent[i + 1..])
    {
      b := sent[i].b;
      sent := sent[..i] + sent[i + 1..];
    }
  }

  // ----- a worker's retry loop

  /** Whether an attempt with this outcome passes the ETag comparison. */
  predicate Succeeds(data: seq<byte>, tag: string, etag: seq<byte> -> string, d: Uploader.Delivery) {
    match d
    case Lost => false
    case Intact(acked) => acked && etag(data) == tag
    case Garbled(bytes, acked) => acked && etag(bytes) == tag
  }

  function Leaves(store: map<nat, seq<byte>>, k: nat, data: seq<byte>, d: Uploader.Delivery): map<nat, seq<byte>> {
    match d
    case Lost => store
    case Intact(_) => store[k := data]
    case Garbled(bytes, _) => store[k := bytes]
  }

  function LeavesAll(store: map<nat, seq<byte>>, k: nat, data: seq<byte>, ds: seq<Uploader.Delivery>)
    : map<nat, seq<byte>>
  {
    if ds == [] then store else Leaves(LeavesAll(store, k, data, ds[..|ds| - 1]), k, data, ds[|ds| - 1])
  }

  /** The loop made `tried` attempts and ended in `ok`. */
  ghost predicate Retried(data: seq<byte>, tag: string, etag: seq<byte> -> string, ds: seq<Uploader.Delivery>,
                          tried: nat, ok: bool)
    requires |ds| == Uploader.ATTEMPTS
  {
    && 1 <= tried <= Uploader.ATTEMPTS && (!ok ==> tried == Uploader.ATTEMPTS)
    && (forall i :: 0 <= i < tried - 1 ==> !Succeeds(data, tag, etag, ds[i]))
    && (ok <==> Succeeds(data, tag, etag, ds[tried - 1]))
  }

  /** retryPutPart: at most three attempts, none after the first success. */
  method RetryPutPart(p: Part, store: map<nat, seq<byte>>, etag: seq<byte> -> string, ds: seq<Uploader.Delivery>)
    returns (ok: bool, tried: nat, after: map<nat, seq<byte>>)
    requires |ds| == Uploader.ATTEMPTS
    ensures Retried(p.b.bytes, p.etag, etag, ds, tried, ok)
    ensures after == LeavesAll(store, p.number, p.b.bytes, ds[..tried])
    ensures ok ==> p.number in after && etag(after[p.number]) == p.etag
  {
    after := store;
    for i := 0 to Uploader.ATTEMPTS
      invariant forall j :: 0 <= j < i ==> !Succeeds(p.b.bytes, p.etag, etag, ds[j])
      invariant after == LeavesAll(store, p.number, p.b.bytes, ds[..i])
    {
      assert ds[..i + 1][..i] == ds[..i];
      after := Leaves(after, p.number, p.b.bytes, ds[i]);
      if Succeeds(p.b.bytes, p.etag, etag, ds[i]) {
        return true, i + 1, after;
      }
    }
    return false, Uploader.ATTEMPTS, after;
  }

  /** The step system takes the same attempts: worker w's steps for these outcomes end with the
      buffer to be given back exactly when the loop ends in success, and with an error otherwise. */
  lemma {:induction false} StepsRetry(c: Uploader.Config, s: Uploader.State, w: nat, ds: seq<Uploader.Delivery>,
                                      i: nat, tried: nat, ok: bool) returns (actions: seq<Uploader.Action>)
    requires w < |s.workers| && s.workers[w].Putting? && s.workers[w].attempt == i < tried
    requires |ds| == Uploader.ATTEMPTS
    requires Retried(Uploader.Mem(s, s.workers[w].part.buf), s.workers[w].part.etag, c.etag, ds, tried, ok)
    ensures |actions| == tried - i
    ensures forall j :: 0 <= j < |actions| ==> actions[j] == Uploader.PutPart(w, ds[i + j])
    ensures Uploader.Runs(c, s, actions) && |Uploader.After(c, s, actions).workers| == |s.workers|
    ensures ok ==> Uploader.After(c, s, actions).workers[w] == Uploader.Giving(s.workers[w].part)
    ensures !ok ==> Uploader.After(c, s, actions).workers[w].Ready? && Uploader.After(c, s, actions).lo.err
    decreases tried - i
  {
    var a := Uploader.PutPart(w, ds[i]);
    var t := Uploader.Step(c, s, a);
    assert t.mem == s.mem;
    if i + 1 < tried {
      var rest := StepsRetry(c, t, w, ds, i + 1, tried, ok);
      actions := [a] + rest;
    } else {
      actions := [a];
      assert actions[1..] == [];
    }
  }

  lemma StepLeaves(c: Uploader.Config, s: Uploader.State, w: nat, d: Uploader.Delivery)
    requires w < |s.workers| && s.workers[w].Putting?
    ensures var t, p := Uploader.Put(c, s, w, d), s.workers[w].part;
            && |t.workers| == |s.workers| && (t.workers[w].Putting? ==> t.workers[w].part == p)
            && t.cloud.store == Leaves(s.cloud.store, p.number, Uploader.Mem(s, p.buf), d)
            && Uploader.Mem(t, p.buf) == Uploader.Mem(s, p.buf)
  {
  }

  /** And they leave the store as the loop does. */
  lemma {:induction false} StepsRetryStore(c: Uploader.Config, s: Uploader.State, w: nat, ds: seq<Uploader.Delivery>,
                                           actions: seq<Uploader.Action>)
    requires w < |s.workers| && s.workers[w].Putting? && Uploader.Runs(c, s, actions)
    requires |actions| == |ds| && forall j :: 0 <= j < |ds| ==> actions[j] == Uploader.PutPart(w, ds[j])
    ensures Uploader.After(c, s, actions).cloud.store
         == LeavesAll(s.cloud.store, s.workers[w].part.number, Uploader.Mem(s, s.workers[w].part.buf), ds)
    decreases |ds|
  {
    if ds != [] {
      var p := s.workers[w].part;
      var t := Uploader.Step(c, s, actions[0]);
      StepLeaves(c, s, w, ds[0]);
      LeavesFirst(s.cloud.store, p.number, Uploader.Mem(s, p.buf), ds);
      if |ds| > 1 {
        assert actions[1] == Uploader.PutPart(w, ds[1]);
        StepsRetryStore(c, t, w, ds[1..], actions[1..]);
      }
    }
  }

  lemma {:induction false} LeavesFirst(store: map<nat, seq<byte>>, k: nat, data: seq<byte>, ds: seq<Uploader.Delivery>)
    requires ds != []
    ensures LeavesAll(store, k, data, ds) == LeavesAll(Leaves(store, k, data, ds[0]), k, data, ds[1..])
  {
    var n := |ds| - 1;
    if n > 0 {
      LeavesFirst(store, k, data, ds[..n]);
      assert ds[..n][1..] == ds[1..][..n - 1];
    }
  }

  // ----- abort

  /** Exactly the listed names of the upload are deleted whose deletion works. */
  ghost predicate Aborted(objectName: string, timestamp: string, names: seq<string>, container: map<string, seq<byte>>,
                          fails: nat -> bool, after: map<string, seq<byte>>)
  {
    && after.Keys <= container.Keys && (forall n :: n in after ==> after[n] == container[n])
    && (forall n :: n in container && n !in after ==>
          HasPrefix(n, Prefix(objectName, timestamp)) && exists i :: 0 <= i < |names| && names[i] == n && !fails(i))
    && (forall i :: 0 <= i < |names| && HasPrefix(names[i], Prefix(objectName, timestamp)) && !fails(i)
          ==> names[i] !in after)
  }

  /** abort over the names a listing returned, none if it failed; `fails(i)` is whether the i-th
      deletion fails. */
  method Abort(objectName: string, timestamp: string, names: seq<string>, container: map<string, seq<byte>>,
               fails: nat -> bool)
    returns (after: map<string, seq<byte>>)
    ensures Aborted(objectName, timestamp, names, container, fails, after)
  {
    after := container;
    for i := 0 to |names|
      invariant after.Keys <= container.Keys && forall n :: n in after ==> after[n] == container[n]
      invariant forall n :: n in container && n !in after ==>
                  HasPrefix(n, Prefix(objectName, timestamp)) && exists j :: 0 <= j < i && names[j] == n && !fails(j)
      invariant forall j :: 0 <= j < i && HasPrefix(names[j], Prefix(objectName, timestamp)) && !fails(j)
                  ==> names[j] !in after
    {
      if HasPrefix(names[i], Prefix(objectName, timestamp)) && !fails(i) {
        after := after - {names[i]};
      }
    }
  }

  /** So an abort never deletes a segment of another upload of the same object. */
  lemma AbortSparesOtherUploads(objectName: string, t0: string, t1: string, k: nat, names: seq<string>,
                                container: map<string, seq<byte>>, fails: nat -> bool,
                                after: map<string, seq<byte>>)
    requires '/' !in t0 && '/' !in t1 && t0 != t1
    requires Aborted(objectName, t0, names, container, fails, after)
    ensures Name(objectName, t1, k) in container ==> Name(objectName, t1, k) in after
  {
    PrefixSeparatesUploads(objectName, t0, t1, k);
  }
}
