/**
 The stdout/stderr multiplexer (internal/util/ioproxy/ioproxy.go) and the log
 copy loop that feeds it (internal/backend/logs.go).

 Two line-buffered proxies share a lock and a sink. Holding the lock makes each
 Write and Flush one atomic operation, so a concurrent execution is a sequence
 of operations. The value-level machine (`Step`, `Run`) says what a sequence of
 operations does; the classes do it on a sink that may take only part of
 what it is offered, and `Drive` shows that they refine the machine.
 */
module StreamMux {
  import opened Basics

  const NEWLINE: Byte := 10
  const TWO32: int := 0x1_0000_0000

  // ---------- Stream format: 8-byte header, then the payload ----------

  datatype Stream = Stdout | Stderr {
    function Code(): Byte { if Stdout? then 1 else 2 }
  }

  datatype Frame = Frame(stream: Byte, payload: seq<Byte>)

  function BigEndian32(n: nat): (b: seq<Byte>)
    requires n < TWO32
    ensures |b| == 4
  {
    [n / 0x100_0000, n / 0x1_0000 % 256, n / 256 % 256, n % 256]
  }

  function Value32(b: seq<Byte>): nat
    requires |b| == 4
  {
    b[0] as int * 0x100_0000 + b[1] as int * 0x1_0000 + b[2] as int * 256 + b[3]
  }

  lemma ValueOfBigEndian(n: nat)
    requires n < TWO32
    ensures Value32(BigEndian32(n)) == n
  {
    assert n / 256 / 256 == n / 0x1_0000;
    assert n / 0x1_0000 / 256 == n / 0x100_0000;
  }

  // The length field is a uint32: longer payloads wrap.
  function Header(stream: Byte, length: nat): (h: seq<Byte>)
    ensures |h| == 8
  {
    [stream, 0, 0, 0] + BigEndian32(length % TWO32)
  }

  function EncodeFrame(f: Frame): seq<Byte> {
    Header(f.stream, |f.payload|) + f.payload
  }

  function Encode(fs: seq<Frame>): seq<Byte> {
    if fs == [] then [] else EncodeFrame(fs[0]) + Encode(fs[1..])
  }

  lemma {:induction false} EncodeConcat(a: seq<Frame>, b: seq<Frame>)
    ensures Encode(a + b) == Encode(a) + Encode(b)
  {
    if a == [] {
      assert a + b == b;
    } else {
      assert (a + b)[1..] == a[1..] + b;
      EncodeConcat(a[1..], b);
    }
  }

  // The client side: None unless the bytes are a whole number of frames.
  function Decode(b: seq<Byte>): Option<seq<Frame>>
    decreases |b|
  {
    if b == [] then Some([])
    else if |b| < 8 then None
    else
      var n := Value32(b[4..8]);
      if |b| < 8 + n then None
      else
        match Decode(b[8 + n..])
        case None => None
        case Some(fs) => Some([Frame(b[0], b[8..8 + n])] + fs)
  }

  ghost predicate Fits(fs: seq<Frame>) {
    forall i :: 0 <= i < |fs| ==> |fs[i].payload| < TWO32
  }

  lemma {:induction false} DecodeCons(f: Frame, rest: seq<Byte>)
    requires |f.payload| < TWO32
    ensures Decode(EncodeFrame(f) + rest) ==
            match Decode(rest) case None => None case Some(fs) => Some([f] + fs)
  {
    var b := EncodeFrame(f) + rest;
    var n := |f.payload|;
    assert b[4..8] == BigEndian32(n);
    ValueOfBigEndian(n);
    assert b[8..8 + n] == f.payload;
    assert b[8 + n..] == rest;
  }

  lemma {:induction false} DecodeFits(b: seq<Byte>)
    ensures Decode(b).Some? ==> Fits(Decode(b).value)
    decreases |b|
  {
    if |b| >= 8 {
      var n := Value32(b[4..8]);
      if |b| >= 8 + n { DecodeFits(b[8 + n..]); }
    }
  }

  // Decoding inverts encoding exactly when no payload overflows the length field.
  lemma {:induction false} DecodeInvertsEncode(fs: seq<Frame>)
    ensures Decode(Encode(fs)) == Some(fs) <==> Fits(fs)
  {
    if !Fits(fs) {
      DecodeFits(Encode(fs));
    } else if fs != [] {
      DecodeInvertsEncode(fs[1..]);
      DecodeCons(fs[0], Encode(fs[1..]));
      assert [fs[0]] + fs[1..] == fs;
    }
  }

  // ---------- The bytes on the wire ----------

  // What the Docker Engine API says of such a stream: each frame is the stream's byte,
  // three zero bytes, the length with its most significant byte first, and the payload.
  ghost predicate Carries(b: seq<Byte>, fs: seq<Frame>)
    decreases |fs|
  {
    if fs == [] then b == []
    else
      var n := |fs[0].payload|;
      && |b| >= 8 + n
      && b[0] == fs[0].stream && b[1] == 0 && b[2] == 0 && b[3] == 0
      && b[4] as int * 16777216 + b[5] as int * 65536 + b[6] as int * 256 + b[7] as int == n
      && b[8..8 + n] == fs[0].payload
      && Carries(b[8 + n..], fs[1..])
  }

  lemma HeaderBytes(stream: Byte, n: nat)
    requires n < 4294967296
    ensures var h := Header(stream, n);
            && h[0] == stream && h[1] == 0 && h[2] == 0 && h[3] == 0
            && h[4] as int * 16777216 + h[5] as int * 65536 + h[6] as int * 256 + h[7] as int == n
  {
    ValueOfBigEndian(n);
  }

  lemma {:induction false} EncodeCarries(fs: seq<Frame>)
    requires forall i :: 0 <= i < |fs| ==> |fs[i].payload| < 4294967296
    ensures Carries(Encode(fs), fs)
  {
    hide Header, BigEndian32;
    if fs != [] {
      var f, b := fs[0], Encode(fs);
      var n := |f.payload|;
      HeaderBytes(f.stream, n);
      EncodeCarries(fs[1..]);
      assert b == Header(f.stream, n) + f.payload + Encode(fs[1..]);
      assert b[8..8 + n] == f.payload && b[8 + n..] == Encode(fs[1..]);
      assert forall i :: 0 <= i < 8 ==> b[i] == Header(f.stream, n)[i];
    }
  }

  // The payloads of the frames with a given stream byte, in order.
  function Labelled(fs: seq<Frame>, code: int): seq<Byte> {
    if fs == [] then []
    else (if fs[0].stream == code then fs[0].payload else []) + Labelled(fs[1..], code)
  }

  // ---------- Line splitting ----------

  ghost predicate NoNewline(b: seq<Byte>) {
    forall i :: 0 <= i < |b| ==> b[i] != NEWLINE
  }

  function NewlineAt(b: seq<Byte>): (k: nat)
    ensures k <= |b|
    ensures k < |b| ==> b[k] == NEWLINE
    ensures NoNewline(b[..k])
  {
    if b == [] || b[0] == NEWLINE then 0
    else
      var k := NewlineAt(b[1..]);
      assert b[..1 + k] == [b[0]] + b[1..][..k];
      1 + k
  }

  // The complete lines at the front of b, newline included, and what follows them.
  function Lines(b: seq<Byte>): seq<seq<Byte>>
    decreases |b|
  {
    var k := NewlineAt(b);
    if k == |b| then [] else [b[..k + 1]] + Lines(b[k + 1..])
  }

  function Rest(b: seq<Byte>): seq<Byte>
    decreases |b|
  {
    var k := NewlineAt(b);
    if k == |b| then b else Rest(b[k + 1..])
  }

  function Flatten(parts: seq<seq<Byte>>): seq<Byte> {
    if parts == [] then [] else parts[0] + Flatten(parts[1..])
  }

  lemma {:induction false} FlattenConcat(a: seq<seq<Byte>>, b: seq<seq<Byte>>)
    ensures Flatten(a + b) == Flatten(a) + Flatten(b)
  {
    if a == [] {
      assert a + b == b;
    } else {
      assert (a + b)[1..] == a[1..] + b;
      FlattenConcat(a[1..], b);
    }
  }

  ghost predicate IsLine(p: seq<Byte>) {
    p != [] && p[|p| - 1] == NEWLINE && NoNewline(p[..|p| - 1])
  }

  lemma {:induction false} LinesAndRest(b: seq<Byte>)
    ensures Flatten(Lines(b)) + Rest(b) == b
    decreases |b|
  {
    hide Lines, Rest;
    UnfoldLines(b);
    var k := NewlineAt(b);
    if k < |b| {
      var line, rest := b[..k + 1], b[k + 1..];
      LinesAndRest(rest);
      FlattenConcat([line], Lines(rest));
      assert Flatten([line]) == line;
      AppendTwice(line, Flatten(Lines(rest)), Rest(rest));
    }
  }

  lemma {:induction false} RestHasNoNewline(b: seq<Byte>)
    ensures NoNewline(Rest(b))
    decreases |b|
  {
    var k := NewlineAt(b);
    if k == |b| {
      assert b[..k] == b;
    } else {
      RestHasNoNewline(b[k + 1..]);
    }
  }

  lemma {:induction false} LinesAreLines(b: seq<Byte>, i: nat)
    requires i < |Lines(b)|
    ensures IsLine(Lines(b)[i])
    decreases |b|
  {
    var k := NewlineAt(b);
    if i == 0 {
      assert b[..k + 1][..k] == b[..k];
    } else {
      LinesAreLines(b[k + 1..], i - 1);
    }
  }

  lemma {:induction false} NewlineAtIs(b: seq<Byte>, k: nat)
    requires k < |b| && b[k] == NEWLINE && NoNewline(b[..k])
    ensures NewlineAt(b) == k
  {
    assert b[..k + 1][k] == NEWLINE;
    assert forall i :: 0 <= i < k ==> b[..k][i] == b[i];
  }

  lemma {:induction false} FirstLine(a: seq<Byte>, b: seq<Byte>)
    requires NewlineAt(a) < |a|
    ensures var k := NewlineAt(a);
            && Lines(a + b) == [a[..k + 1]] + Lines(a[k + 1..] + b)
            && Rest(a + b) == Rest(a[k + 1..] + b)
  {
    var k := NewlineAt(a);
    assert (a + b)[..k] == a[..k];
    NewlineAtIs(a + b, k);
    assert (a + b)[..k + 1] == a[..k + 1];
    assert (a + b)[k + 1..] == a[k + 1..] + b;
  }

  // Splitting the input does not change the lines found in it.
  lemma {:induction false} LinesOfSplit(a: seq<Byte>, b: seq<Byte>)
    ensures Lines(a + b) == Lines(a) + Lines(Rest(a) + b)
    ensures Rest(a + b) == Rest(Rest(a) + b)
    decreases |a|
  {
    hide Lines, Rest;
    UnfoldLines(a);
    var k := NewlineAt(a);
    if k < |a| {
      FirstLine(a, b);
      LinesOfSplit(a[k + 1..], b);
      AppendTwice([a[..k + 1]], Lines(a[k + 1..]), Lines(Rest(a) + b));
    }
  }

  lemma {:induction false} UnfoldLines(b: seq<Byte>)
    ensures var k := NewlineAt(b);
            if k == |b| then Lines(b) == [] && Rest(b) == b
            else Lines(b) == [b[..k + 1]] + Lines(b[k + 1..]) && Rest(b) == Rest(b[k + 1..])
  {
    hide NewlineAt;
  }

  lemma {:induction false} AppendTwice<T>(a: seq<T>, b: seq<T>, c: seq<T>)
    ensures a + b + c == a + (b + c)
  {
  }

  // ---------- The value-level machine ----------

  // `timers` counts the delayed flushes that have been spawned and not yet run.
  datatype Proxy = Proxy(buf: seq<Byte>, flusher: bool, timers: nat)

  datatype Mux = Mux(stdout: Proxy, stderr: Proxy, frames: seq<Frame>) {
    function Of(s: Stream): Proxy { if s.Stdout? then stdout else stderr }
    function With(s: Stream, p: Proxy, fs: seq<Frame>): Mux {
      if s.Stdout? then Mux(p, stderr, frames + fs) else Mux(stdout, p, frames + fs)
    }
  }

  datatype Op = Write(s: Stream, data: seq<Byte>) | Flush(s: Stream) | Timer(s: Stream)

  function Framed(s: Stream, parts: seq<seq<Byte>>): (fs: seq<Frame>)
    ensures |fs| == |parts|
    ensures forall i :: 0 <= i < |fs| ==> fs[i] == Frame(s.Code(), parts[i])
  {
    seq(|parts|, i requires 0 <= i < |parts| => Frame(s.Code(), parts[i]))
  }

  function WriteStep(p: Proxy, data: seq<Byte>): Proxy {
    var rest := Rest(p.buf + data);
    if rest != [] && !p.flusher then Proxy(rest, true, p.timers + 1) else p.(buf := rest)
  }

  function FlushStep(p: Proxy): Proxy {
    if p.buf == [] then p else Proxy([], false, p.timers)
  }

  function Flushed(p: Proxy): seq<seq<Byte>> {
    if p.buf == [] then [] else [p.buf]
  }

  function Step(m: Mux, op: Op): Mux {
    var p := m.Of(op.s);
    match op
    case Write(s, data) => m.With(s, WriteStep(p, data), Framed(s, Lines(p.buf + data)))
    case Flush(s) => m.With(s, FlushStep(p), Framed(s, Flushed(p)))
    case Timer(s) =>
      if p.timers == 0 then m
      else m.With(s, FlushStep(p.(timers := p.timers - 1)), Framed(s, Flushed(p)))
  }

  // The payloads an operation sends.
  function Emitted(p: Proxy, op: Op): seq<seq<Byte>> {
    match op
    case Write(_, data) => Lines(p.buf + data)
    case Flush(_) => Flushed(p)
    case Timer(_) => if p.timers == 0 then [] else Flushed(p)
  }

  lemma {:induction false} StepEncodes(m: Mux, op: Op)
    ensures Encode(Step(m, op).frames) == Encode(m.frames) + Encode(Framed(op.s, Emitted(m.Of(op.s), op)))
  {
    EncodeConcat(m.frames, Framed(op.s, Emitted(m.Of(op.s), op)));
  }

  const IDLE := Proxy([], false, 0)

  function Run(ops: seq<Op>): Mux {
    if ops == [] then Mux(IDLE, IDLE, []) else Step(Run(ops[..|ops| - 1]), ops[|ops| - 1])
  }

  function DataFor(op: Op, s: Stream): seq<Byte> {
    if op.Write? && op.s == s then op.data else []
  }

  // What was written to one stream, and what the frames of that stream carry.
  function Written(ops: seq<Op>, s: Stream): seq<Byte> {
    if ops == [] then []
    else
      var op := ops[|ops| - 1];
      Written(ops[..|ops| - 1], s) + DataFor(op, s)
  }

  function Payload(fs: seq<Frame>, s: Stream): seq<Byte> {
    if fs == [] then []
    else (if fs[0].stream == s.Code() then fs[0].payload else []) + Payload(fs[1..], s)
  }

  lemma {:induction false} PayloadConcat(a: seq<Frame>, b: seq<Frame>, s: Stream)
    ensures Payload(a + b, s) == Payload(a, s) + Payload(b, s)
  {
    if a == [] {
      assert a + b == b;
    } else {
      assert (a + b)[1..] == a[1..] + b;
      PayloadConcat(a[1..], b, s);
    }
  }

  lemma {:induction false} PayloadFramed(parts: seq<seq<Byte>>, s: Stream, t: Stream)
    ensures Payload(Framed(s, parts), t) == if s == t then Flatten(parts) else []
  {
    if parts != [] {
      assert Framed(s, parts)[1..] == Framed(s, parts[1..]);
      PayloadFramed(parts[1..], s, t);
    }
  }

  // A frame is non-empty and has a newline, if any, only as its last byte.
  ghost predicate GoodPayload(p: seq<Byte>) {
    p != [] && NoNewline(p[..|p| - 1])
  }

  ghost predicate Inv(m: Mux) {
    && (forall s: Stream :: NoNewline(m.Of(s).buf))
    && (forall i :: 0 <= i < |m.frames| ==> GoodPayload(m.frames[i].payload))
  }

  // Any change of one proxy that only moves bytes out of its buffer conserves.
  lemma {:induction false} Moves(m: Mux, s: Stream, p: Proxy, parts: seq<seq<Byte>>, data: seq<Byte>, t: Stream)
    requires Flatten(parts) + p.buf == m.Of(s).buf + data
    ensures var m' := m.With(s, p, Framed(s, parts));
            Payload(m'.frames, t) + m'.Of(t).buf
            == Payload(m.frames, t) + m.Of(t).buf + (if s == t then data else [])
  {
    hide Payload, Flatten, Framed;
    PayloadConcat(m.frames, Framed(s, parts), t);
    PayloadFramed(parts, s, t);
    var sent := Payload(m.frames, t);
    if s == t {
      AppendTwice(sent, Flatten(parts), p.buf);
      AppendTwice(sent, m.Of(s).buf, data);
    } else {
      assert sent + [] == sent && sent + m.Of(t).buf + [] == sent + m.Of(t).buf;
    }
  }

  lemma {:induction false} KeepsInv(m: Mux, s: Stream, p: Proxy, parts: seq<seq<Byte>>)
    requires Inv(m) && NoNewline(p.buf)
    requires forall i :: 0 <= i < |parts| ==> GoodPayload(parts[i])
    ensures Inv(m.With(s, p, Framed(s, parts)))
  {
    var m' := m.With(s, p, Framed(s, parts));
    forall t: Stream ensures NoNewline(m'.Of(t).buf) {
      assert m'.Of(t) == if t == s then p else m.Of(t);
    }
  }

  lemma {:induction false} StepConserves(m: Mux, op: Op, t: Stream)
    ensures Payload(Step(m, op).frames, t) + Step(m, op).Of(t).buf
         == Payload(m.frames, t) + m.Of(t).buf + DataFor(op, t)
  {
    var p := m.Of(op.s);
    match op
    case Write(s, data) =>
      LinesAndRest(p.buf + data);
      Moves(m, s, WriteStep(p, data), Lines(p.buf + data), data, t);
    case Flush(s) => Moves(m, s, FlushStep(p), Flushed(p), [], t);
    case Timer(s) =>
      if p.timers > 0 {
        Moves(m, s, FlushStep(p.(timers := p.timers - 1)), Flushed(p), [], t);
      }
  }

  lemma {:induction false} StepKeepsInv(m: Mux, op: Op)
    requires Inv(m)
    ensures Inv(Step(m, op))
  {
    var p := m.Of(op.s);
    match op
    case Write(s, data) =>
      var b := p.buf + data;
      RestHasNoNewline(b);
      forall i | 0 <= i < |Lines(b)| ensures GoodPayload(Lines(b)[i]) { LinesAreLines(b, i); }
      KeepsInv(m, s, WriteStep(p, data), Lines(b));
    case Flush(s) => KeepsInv(m, s, FlushStep(p), Flushed(p));
    case Timer(s) =>
      if p.timers > 0 { KeepsInv(m, s, FlushStep(p.(timers := p.timers - 1)), Flushed(p)); }
  }

  // Conservation over every interleaving: per stream, the frames sent followed
  // by the buffer are the bytes written, in order.
  lemma {:induction false} RunConserves(ops: seq<Op>, s: Stream)
    ensures Inv(Run(ops))
    ensures Payload(Run(ops).frames, s) + Run(ops).Of(s).buf == Written(ops, s)
  {
    if ops != [] {
      RunConserves(ops[..|ops| - 1], s);
      StepConserves(Run(ops[..|ops| - 1]), ops[|ops| - 1], s);
      StepKeepsInv(Run(ops[..|ops| - 1]), ops[|ops| - 1]);
    }
  }

  lemma {:induction false} RunStreams(ops: seq<Op>)
    ensures forall i :: 0 <= i < |Run(ops).frames| ==> Run(ops).frames[i].stream in {1, 2}
  {
    if ops != [] { RunStreams(ops[..|ops| - 1]); }
  }

  lemma {:induction false} PayloadCovers(fs: seq<Frame>, i: nat, s: Stream)
    requires i < |fs| && fs[i].stream == s.Code()
    ensures |fs[i].payload| <= |Payload(fs, s)|
  {
    if i > 0 { PayloadCovers(fs[1..], i - 1, s); }
  }

  // At every lock release the sink is a whole number of frames, the ones sent,
  // if no frame overflows the length field; fewer than 2^32 bytes
  // written per stream are enough for that.
  lemma {:induction false} SinkDecodes(ops: seq<Op>)
    ensures Decode(Encode(Run(ops).frames)) == Some(Run(ops).frames) <==> Fits(Run(ops).frames)
    ensures |Written(ops, Stdout)| < TWO32 && |Written(ops, Stderr)| < TWO32 ==> Fits(Run(ops).frames)
  {
    var fs := Run(ops).frames;
    DecodeInvertsEncode(fs);
    RunStreams(ops);
    RunConserves(ops, Stdout);
    RunConserves(ops, Stderr);
    forall i | 0 <= i < |fs|
      ensures |fs[i].payload| <= |Written(ops, Stdout)| || |fs[i].payload| <= |Written(ops, Stderr)|
    {
      PayloadCovers(fs, i, if fs[i].stream == 1 then Stdout else Stderr);
    }
  }

  lemma {:induction false} LabelledIs(fs: seq<Frame>)
    ensures Labelled(fs, 1) == Payload(fs, Stdout) && Labelled(fs, 2) == Payload(fs, Stderr)
  {
    if fs != [] { LabelledIs(fs[1..]); }
  }

  // In the terms of the wire, for every run: the frames labelled 1 followed by the stdout
  // buffer are what was written to stdout, those labelled 2 and the stderr buffer what was
  // written to stderr, there are no others, and a line feed only ends a frame.
  lemma {:induction false} OnTheWire(ops: seq<Op>)
    ensures var m := Run(ops);
            && Labelled(m.frames, 1) + m.stdout.buf == Written(ops, Stdout)
            && Labelled(m.frames, 2) + m.stderr.buf == Written(ops, Stderr)
            && 10 !in m.stdout.buf && 10 !in m.stderr.buf
            && forall i :: 0 <= i < |m.frames| ==>
                 var f := m.frames[i];
                 f.stream in {1, 2} && f.payload != [] && 10 !in f.payload[..|f.payload| - 1]
  {
    hide Run, Written, Labelled, Payload;
    LabelledIs(Run(ops).frames);
    RunStreams(ops);
    RunConserves(ops, Stdout);
    RunConserves(ops, Stderr);
    assert NoNewline(Run(ops).Of(Stdout).buf) && NoNewline(Run(ops).Of(Stderr).buf);
  }

  // What a client sees of one stream.
  function Demux(b: seq<Byte>, s: Stream): Option<seq<Byte>> {
    match Decode(b) case None => None case Some(fs) => Some(Payload(fs, s))
  }

  lemma {:induction false} FlushEmpties(ops: seq<Op>, s: Stream)
    requires ops != [] && ops[|ops| - 1] == Flush(s)
    ensures Run(ops).Of(s).buf == []
  {
  }

  // After a flush of s the client has everything written to s.
  lemma {:induction false} FlushedDemux(ops: seq<Op>, s: Stream)
    requires ops != [] && ops[|ops| - 1] == Flush(s)
    requires |Written(ops, Stdout)| < TWO32 && |Written(ops, Stderr)| < TWO32
    ensures Demux(Encode(Run(ops).frames), s) == Some(Written(ops, s))
  {
    hide Run, Encode, Decode, Written, Payload;
    SinkDecodes(ops);
    RunConserves(ops, s);
    FlushEmpties(ops, s);
    assert Payload(Run(ops).frames, s) + [] == Payload(Run(ops).frames, s);
  }

  // What happens when an exec is over: each stream is flushed, delayed flushes may run
  // before, between and after, and nothing more is written.
  ghost predicate Closes(closing: seq<Op>) {
    Flush(Stdout) in closing && Flush(Stderr) in closing && forall i :: 0 <= i < |closing| ==> !closing[i].Write?
  }

  lemma {:induction false} ClosingWrites(ops: seq<Op>, closing: seq<Op>, s: Stream)
    requires forall i :: 0 <= i < |closing| ==> !closing[i].Write?
    ensures Written(ops + closing, s) == Written(ops, s)
  {
    var all := ops + closing;
    if closing == [] {
      assert all == ops;
    } else {
      var n := |closing| - 1;
      ClosingWrites(ops, closing[..n], s);
      assert all[..|all| - 1] == ops + closing[..n] && all[|all| - 1] == closing[n];
      assert Written(ops, s) + [] == Written(ops, s);
    }
  }

  lemma {:induction false} EmptyStays(m: Mux, op: Op, s: Stream)
    requires !op.Write? && (m.Of(s).buf == [] || op == Flush(s))
    ensures Step(m, op).Of(s).buf == []
  {
    hide Framed;
  }

  lemma {:induction false} ClosingEmpties(ops: seq<Op>, closing: seq<Op>, s: Stream)
    requires forall i :: 0 <= i < |closing| ==> !closing[i].Write?
    requires Flush(s) in closing
    ensures Run(ops + closing).Of(s).buf == []
  {
    hide Run, Step;
    var n := |closing| - 1;
    var front := ops + closing[..n];
    RunOne(front, closing[n]);
    assert ops + closing == front + [closing[n]];
    if closing[n] != Flush(s) { ClosingEmpties(ops, closing[..n], s); }
    EmptyStays(Run(front), closing[n], s);
  }

  lemma {:induction false} RunOne(ops: seq<Op>, op: Op)
    ensures Run(ops + [op]) == Step(Run(ops), op)
  {
    hide Step;
    assert (ops + [op])[..|ops|] == ops;
  }

  // When an exec is over, the client has everything written to either stream. The
  // deferred flushes run last first, stderr then stdout; the order does not matter.
  lemma {:induction false} ExecDemux(ops: seq<Op>, closing: seq<Op>, s: Stream)
    requires |Written(ops, Stdout)| < TWO32 && |Written(ops, Stderr)| < TWO32 && Closes(closing)
    ensures Demux(Encode(Run(ops + closing).frames), s) == Some(Written(ops, s))
  {
    hide Run, Encode, Decode, Written, Payload;
    var all := ops + closing;
    ClosingWrites(ops, closing, Stdout);
    ClosingWrites(ops, closing, Stderr);
    ClosingEmpties(ops, closing, s);
    SinkDecodes(all);
    RunConserves(all, s);
    assert Run(all).Of(s).buf == [];
    assert Payload(Run(all).frames, s) + [] == Payload(Run(all).frames, s);
  }

  // Writing in two pieces sends the same frames and buffers the same bytes as
  // writing at once. (The flusher flag may differ.)
  lemma {:induction false} SplitInvariant(m: Mux, s: Stream, a: seq<Byte>, b: seq<Byte>, t: Stream)
    ensures var two := Step(Step(m, Write(s, a)), Write(s, b));
            var one := Step(m, Write(s, a + b));
            two.frames == one.frames && two.Of(t).buf == one.Of(t).buf
  {
    hide Lines, Rest;
    var buf := m.Of(s).buf;
    assert buf + a + b == buf + (a + b);
    LinesOfSplit(buf + a, b);
    FramedConcat(s, Lines(buf + a), Lines(Rest(buf + a) + b));
    AppendTwice(m.frames, Framed(s, Lines(buf + a)), Framed(s, Lines(Rest(buf + a) + b)));
  }

  lemma {:induction false} FramedConcat(s: Stream, a: seq<seq<Byte>>, b: seq<seq<Byte>>)
    ensures Framed(s, a + b) == Framed(s, a) + Framed(s, b)
  {
  }

  // ---------- Automatic flushing ----------

  // The flag says a flush is scheduled but none is: Flush returns early on an
  // empty buffer without clearing it.
  ghost predicate Stale(p: Proxy) { p.flusher && p.timers == 0 }

  lemma {:induction false} BufferedMeansFlagged(ops: seq<Op>, s: Stream)
    ensures Run(ops).Of(s).buf != [] ==> Run(ops).Of(s).flusher
  {
    if ops != [] { BufferedMeansFlagged(ops[..|ops| - 1], s); }
  }

  // A proxy becomes stale exactly when its last timer fires on an empty buffer
  // while the flag is set; short of that, buffered bytes have a flush pending.
  lemma {:induction false} GoesStale(ops: seq<Op>, op: Op, s: Stream)
    requires !Stale(Run(ops).Of(s))
    ensures Run(ops).Of(s).buf != [] ==> Run(ops).Of(s).timers > 0
    ensures Stale(Run(ops + [op]).Of(s)) <==>
            (op == Timer(s) && Run(ops).Of(s).buf == [] && Run(ops).Of(s).flusher && Run(ops).Of(s).timers == 1)
  {
    BufferedMeansFlagged(ops, s);
    assert (ops + [op])[..|ops|] == ops;
  }

  // Once stale, later bytes stay buffered until somebody calls Flush.
  lemma {:induction false} StaleForever(m: Mux, ops: seq<Op>, s: Stream)
    requires Stale(m.Of(s)) && Flush(s) !in ops
    ensures Stale(RunFrom(m, ops).Of(s))
    ensures NoNewline(m.Of(s).buf + Written(ops, s)) ==> RunFrom(m, ops).Of(s).buf == m.Of(s).buf + Written(ops, s)
  {
    if ops != [] {
      var front, op := ops[..|ops| - 1], ops[|ops| - 1];
      hide Step;
      StaleForever(m, front, s);
      StaleStep(RunFrom(m, front), op, s);
      var before, all := m.Of(s).buf + Written(front, s), m.Of(s).buf + Written(ops, s);
      AppendTwice(m.Of(s).buf, Written(front, s), DataFor(op, s));
      if NoNewline(all) {
        assert forall i :: 0 <= i < |before| ==> before[i] == all[i];
      }
    }
  }

  lemma {:induction false} StaleStep(m: Mux, op: Op, s: Stream)
    requires Stale(m.Of(s)) && op != Flush(s)
    ensures Stale(Step(m, op).Of(s))
    ensures NoNewline(m.Of(s).buf + DataFor(op, s)) ==> Step(m, op).Of(s).buf == m.Of(s).buf + DataFor(op, s)
  {
    hide Rest, Lines, Framed;
    var all := m.Of(s).buf + DataFor(op, s);
    if NoNewline(all) { RestOfNoNewline(all); }
  }

  lemma {:induction false} RestOfNoNewline(b: seq<Byte>)
    requires NoNewline(b)
    ensures Rest(b) == b
  {
    hide Rest, Lines;
    UnfoldLines(b);
  }

  function RunFrom(m: Mux, ops: seq<Op>): Mux {
    if ops == [] then m else Step(RunFrom(m, ops[..|ops| - 1]), ops[|ops| - 1])
  }

  // A run that reaches the stale state: the newline empties the buffer before
  // the timer fires, and the last byte then has no flush pending.
  lemma StaleRun()
    ensures var ops := [Write(Stdout, [97]), Write(Stdout, [NEWLINE]), Timer(Stdout), Write(Stdout, [98])];
            Run(ops).stdout == Proxy([98], true, 0)
  {
    var o1 := [Write(Stdout, [97])];
    var o2 := o1 + [Write(Stdout, [NEWLINE])];
    var o3 := o2 + [Timer(Stdout)];
    var o4 := o3 + [Write(Stdout, [98])];
    assert o1[..0] == [] && o2[..1] == o1 && o3[..2] == o2 && o4[..3] == o3;
    assert Run(o1).stdout == Proxy([97], true, 1);
    LinesOfSplit([97], [NEWLINE]);
    NewlineAtIs([97, NEWLINE], 1);
    assert [97] + [NEWLINE] == [97, NEWLINE];
    assert Rest([97] + [NEWLINE]) == [];
    assert Run(o2).stdout == Proxy([], true, 1);
    assert Run(o3).stdout == Proxy([], true, 0);
    assert o4 == [Write(Stdout, [97]), Write(Stdout, [NEWLINE]), Timer(Stdout), Write(Stdout, [98])];
  }

  // ---------- The proxies ----------

  // The bytes sent for the complete lines of b.
  function Sent(s: Stream, b: seq<Byte>): seq<Byte> {
    Encode(Framed(s, Lines(b)))
  }

  lemma {:induction false} SentFirst(s: Stream, b: seq<Byte>)
    ensures var k := NewlineAt(b);
            if k == |b| then Sent(s, b) == [] && Rest(b) == b
            else && Sent(s, b) == EncodeFrame(Frame(s.Code(), b[..k + 1])) + Sent(s, b[k + 1..])
                 && Rest(b) == Rest(b[k + 1..])
  {
    hide Lines, Rest, NewlineAt;
    UnfoldLines(b);
    var k := NewlineAt(b);
    if k < |b| {
      FramedConcat(s, [b[..k + 1]], Lines(b[k + 1..]));
      var first := Framed(s, [b[..k + 1]]);
      assert Encode(first) == EncodeFrame(first[0]);
      hide Encode, Framed;
      EncodeConcat(first, Framed(s, Lines(b[k + 1..])));
    }
  }

  // A writer that may take any non-empty part of what it is offered, or fail.
  class Sink {
    var bytes: seq<Byte>
    var failed: bool

    constructor ()
      ensures bytes == [] && !failed
    {
      bytes, failed := [], false;
    }

    method Write(p: seq<Byte>) returns (n: nat, ok: bool)
      modifies this
      ensures n <= |p| && bytes == old(bytes) + p[..n]
      ensures failed == (old(failed) || !ok)
      ensures ok && p != [] ==> n > 0
    {
      n :| 0 <= n <= |p| && (p != [] ==> n > 0);
      ok := *;
      bytes := bytes + p[..n];
      failed := failed || !ok;
    }
  }

  class IoProxy {
    const out: Sink
    const stream: Stream
    var buf: seq<Byte>
    var flusher: bool
    var timers: nat

    ghost function View(): Proxy
      reads this
    {
      Proxy(buf, flusher, timers)
    }

    constructor (w: Sink, s: Stream)
      ensures out == w && stream == s && View() == IDLE
    {
      out, stream, buf, flusher, timers := w, s, [], false, 0;
    }

    method WriteAll(p: seq<Byte>) returns (ok: bool)
      modifies out
      ensures out.failed == (old(out.failed) || !ok)
      ensures ok ==> out.bytes == old(out.bytes) + p
    {
      var rest := p;
      ghost var k := 0;
      while rest != []
        invariant 0 <= k <= |p| && rest == p[k..]
        invariant out.failed == old(out.failed) && out.bytes == old(out.bytes) + p[..k]
        decreases |rest|
      {
        var n, taken := out.Write(rest);
        if !taken { return false; }
        assert p[..k + n] == p[..k] + rest[..n];
        rest, k := rest[n..], k + n;
      }
      assert p[..k] == p;
      return true;
    }

    // Sends one frame: header, then payload.
    method WriteFrame(p: seq<Byte>) returns (ok: bool)
      modifies out
      ensures out.failed == (old(out.failed) || !ok)
      ensures ok ==> out.bytes == old(out.bytes) + EncodeFrame(Frame(stream.Code(), p))
    {
      ok := WriteAll(Header(stream.Code(), |p|));
      if ok {
        ok := WriteAll(p);
      }
    }

    // Sends the first complete line of the buffer, if there is one.
    method Process() returns (n: nat)
      requires out as object != this
      modifies this`buf, out
      ensures n == 0 <==> NewlineAt(old(buf)) == |old(buf)|
      ensures n == 0 ==> buf == old(buf) && out.bytes == old(out.bytes) && out.failed == old(out.failed)
      ensures n > 0 ==> n == NewlineAt(old(buf)) + 1 && buf == old(buf)[n..]
      ensures old(out.failed) ==> out.failed
      ensures n > 0 && !out.failed ==>
                out.bytes == old(out.bytes) + EncodeFrame(Frame(stream.Code(), old(buf)[..n]))
    {
      var length := |buf|;
      for pos := 0 to length
        invariant buf == old(buf) && out.bytes == old(out.bytes) && out.failed == old(out.failed)
        invariant NoNewline(buf[..pos])
      {
        if buf[pos] == NEWLINE {
          NewlineAtIs(buf, pos);
          var _ := WriteFrame(buf[..pos + 1]);
          buf := buf[pos + 1..];
          return pos + 1;
        }
      }
      assert buf[..length] == buf;
      return 0;
    }

    // Calls Process until it finds no newline.
    method Drain()
      modifies this`buf, out
      ensures buf == Rest(old(buf))
      ensures old(out.failed) ==> out.failed
      ensures !out.failed ==> out.bytes == old(out.bytes) + Sent(stream, old(buf))
    {
      hide Lines, Rest, Encode, Framed, NewlineAt;
      while true
        invariant Rest(buf) == Rest(old(buf))
        invariant old(out.failed) ==> out.failed
        invariant !out.failed ==> out.bytes + Sent(stream, buf) == old(out.bytes) + Sent(stream, old(buf))
        decreases |buf|
      {
        SentFirst(stream, buf);
        var n := Process();
        if n == 0 { break; }
      }
    }

    method Write(p: seq<Byte>) returns (n: nat)
      modifies this`buf, this`flusher, this`timers, out
      ensures n == |p|
      ensures View() == WriteStep(old(View()), p)
      ensures old(out.failed) ==> out.failed
      ensures !out.failed ==>
                out.bytes == old(out.bytes) + Sent(stream, old(buf) + p)
    {
      buf := buf + p;
      Drain();
      if buf != [] && !flusher {
        flusher := true;
        timers := timers + 1;
      }
      n := |p|;
    }

    // The early return does not touch the flag.
    method Flush() returns (ok: bool)
      modifies this`buf, this`flusher, out
      ensures View() == FlushStep(old(View()))
      ensures old(out.failed) ==> out.failed
      ensures !out.failed ==>
                out.bytes == old(out.bytes) + Encode(Framed(stream, Flushed(old(View()))))
    {
      if |buf| == 0 { return true; }
      ok := WriteFrame(buf);
      buf := [];
      flusher := false;
    }

    // A delayed flush wakes up.
    method Fire()
      modifies this`buf, this`flusher, this`timers, out
      ensures old(timers) == 0 ==> View() == old(View()) && out.bytes == old(out.bytes)
      ensures old(timers) > 0 ==> View() == FlushStep(old(View()).(timers := old(timers) - 1))
      ensures old(out.failed) ==> out.failed
      ensures old(timers) > 0 && !out.failed ==>
                out.bytes == old(out.bytes) + Encode(Framed(stream, Flushed(old(View()))))
    {
      if timers > 0 {
        timers := timers - 1;
        var _ := Flush();
      }
    }
  }

  // One operation on the real proxies is one step of the machine.
  method Perform(stdout: IoProxy, stderr: IoProxy, op: Op, ghost m: Mux)
    requires stdout != stderr && stdout.stream == Stdout && stderr.stream == Stderr && stdout.out == stderr.out
    requires stdout.View() == m.stdout && stderr.View() == m.stderr
    requires !stdout.out.failed ==> stdout.out.bytes == Encode(m.frames)
    modifies stdout, stderr, stdout.out
    ensures stdout.View() == Step(m, op).stdout && stderr.View() == Step(m, op).stderr
    ensures old(stdout.out.failed) ==> stdout.out.failed
    ensures !stdout.out.failed ==> stdout.out.bytes == Encode(Step(m, op).frames)
  {
    StepEncodes(m, op);
    var w := if op.s.Stdout? then stdout else stderr;
    match op
    case Write(_, data) => var _ := w.Write(data);
    case Flush(_) => var _ := w.Flush();
    case Timer(_) => w.Fire();
  }

  // Every interleaving of operations on two proxies sharing a sink, for every
  // pattern of short writes: until a sink write fails, the sink holds the
  // encoding of the frames of `Run`.
  method Drive(ops: seq<Op>) returns (sink: Sink, stdout: IoProxy, stderr: IoProxy)
    ensures stdout.View() == Run(ops).stdout && stderr.View() == Run(ops).stderr
    ensures !sink.failed ==> sink.bytes == Encode(Run(ops).frames)
    ensures !sink.failed && Fits(Run(ops).frames) ==> Carries(sink.bytes, Run(ops).frames)
  {
    sink := new Sink();
    stdout := new IoProxy(sink, Stdout);
    stderr := new IoProxy(sink, Stderr);
    for i := 0 to |ops|
      invariant fresh(sink) && fresh(stdout) && fresh(stderr) && stdout != stderr
      invariant stdout.out == stderr.out == sink && stdout.stream == Stdout && stderr.stream == Stderr
      invariant stdout.View() == Run(ops[..i]).stdout && stderr.View() == Run(ops[..i]).stderr
      invariant !sink.failed ==> sink.bytes == Encode(Run(ops[..i]).frames)
    {
      assert ops[..i + 1][..i] == ops[..i];
      Perform(stdout, stderr, ops[i], Run(ops[..i]));
    }
    assert ops[..|ops|] == ops;
    if Fits(Run(ops).frames) { EncodeCarries(Run(ops).frames); }
  }
}

/** The log copy loop of internal/backend/logs.go. */
module Logs {
  import opened Basics
  import opened StreamMux

  // What one turn of the loop meets. Reads may carry data together with EOF.
  datatype Event =
    | Stop
    | Wake                    // a delayed flush of the proxy runs
    | Data(bytes: seq<Byte>)
    | Eof(bytes: seq<Byte>)
    | Fail(bytes: seq<Byte>)

  // The stop channel is only wired up when following.
  predicate Ends(e: Event, follow: bool) {
    e.Eof? || e.Fail? || (e.Stop? && follow) || (e == Data([]) && !follow)
  }

  // The operations on the proxy; the deferred Flush runs when the loop ends.
  function LogOps(events: seq<Event>, follow: bool): seq<Op> {
    if events == [] then []
    else if Ends(events[0], follow) then [Op.Flush(Stdout)]
    else TurnOps(events[0]) + LogOps(events[1..], follow)
  }

  function TurnOps(e: Event): seq<Op> {
    match e
    case Data(b) => if b == [] then [] else [Op.Write(Stdout, b)]
    case Wake => [Op.Timer(Stdout)]
    case _ => []
  }

  lemma {:induction false} UnfoldLogOps(events: seq<Event>, i: nat, follow: bool, done: seq<Op>)
    requires i <= |events| && LogOps(events, follow) == done + LogOps(events[i..], follow)
    ensures i == |events| ==> LogOps(events, follow) == done
    ensures i < |events| && Ends(events[i], follow) ==> LogOps(events, follow) == done + [Op.Flush(Stdout)]
    ensures i < |events| && !Ends(events[i], follow) ==>
              LogOps(events, follow) == done + TurnOps(events[i]) + LogOps(events[i + 1..], follow)
  {
    if i < |events| {
      assert events[i..][1..] == events[i + 1..];
    }
  }

  predicate Returns(events: seq<Event>, follow: bool) {
    exists i :: 0 <= i < |events| && Ends(events[i], follow)
  }

  // The log bytes read before the loop ends.
  function Logged(events: seq<Event>, follow: bool): seq<Byte> {
    if events == [] || Ends(events[0], follow) then []
    else (if events[0].Data? then events[0].bytes else []) + Logged(events[1..], follow)
  }

  method GetLogs(events: seq<Event>, follow: bool) returns (sink: Sink, returned: bool)
    ensures returned == Returns(events, follow)
    ensures !sink.failed ==> sink.bytes == Encode(Run(LogOps(events, follow)).frames)
  {
    assert Encode(Run([]).frames) == [] && Run([]).stdout == IDLE;
    assert events[0..] == events;
    hide Run, LogOps, Encode, Ends;
    sink := new Sink();
    var out := new IoProxy(sink, Stdout);
    ghost var done: seq<Op> := [];
    var i := 0;
    while i < |events|
      invariant 0 <= i <= |events|
      invariant fresh(sink) && fresh(out) && out.out == sink && out.stream == Stdout
      invariant forall j :: 0 <= j < i ==> !Ends(events[j], follow)
      invariant LogOps(events, follow) == done + LogOps(events[i..], follow)
      invariant InStep(out, done)
    {
      UnfoldLogOps(events, i, follow, done);
      if Ends(events[i], follow) {
        Finish(out, done);
        return sink, true;
      }
      Turn(out, events[i], done);
      done := done + TurnOps(events[i]);
      i := i + 1;
    }
    UnfoldLogOps(events, i, follow, done);
    returned := false;
  }

  // The proxy and its sink are where the operations done so far leave them.
  ghost predicate InStep(out: IoProxy, done: seq<Op>)
    reads out, out.out
  {
    out.View() == Run(done).stdout && (!out.out.failed ==> out.out.bytes == Encode(Run(done).frames))
  }

  method Finish(out: IoProxy, ghost done: seq<Op>)
    requires out.stream == Stdout && InStep(out, done)
    modifies out, out.out
    ensures InStep(out, done + [Op.Flush(Stdout)])
  {
    hide Run, Encode, Lines, Rest, Framed;
    Performed(done, Op.Flush(Stdout));
    var _ := out.Flush();
  }

  method Turn(out: IoProxy, e: Event, ghost done: seq<Op>)
    requires out.stream == Stdout && InStep(out, done)
    modifies out, out.out
    ensures InStep(out, done + TurnOps(e))
  {
    hide Run, Encode, Lines, Rest, Framed;
    match e {
      case Data(b) =>
        if b == [] {
          assert done + TurnOps(e) == done;
        } else {
          Performed(done, Op.Write(Stdout, b));
          var _ := out.Write(b);
        }
      case Wake =>
        Performed(done, Op.Timer(Stdout));
        out.Fire();
      case _ =>
        assert done + TurnOps(e) == done;
    }
  }

  lemma {:induction false} Performed(done: seq<Op>, op: Op)
    ensures Run(done + [op]) == Step(Run(done), op)
    ensures Emitted(Run(done).Of(op.s), op) == [] ==> Encode(Run(done + [op]).frames) == Encode(Run(done).frames)
    ensures Encode(Run(done + [op]).frames)
         == Encode(Run(done).frames) + Encode(Framed(op.s, Emitted(Run(done).Of(op.s), op)))
  {
    StepEncodes(Run(done), op);
    assert (done + [op])[..|done|] == done;
  }

  lemma {:induction false} WrittenConcat(a: seq<Op>, b: seq<Op>, s: Stream)
    ensures Written(a + b, s) == Written(a, s) + Written(b, s)
  {
    hide DataFor;
    if b == [] {
      assert a + b == a;
    } else {
      var n := |b| - 1;
      WrittenConcat(a, b[..n], s);
      assert (a + b)[..|a + b| - 1] == a + b[..n];
      AppendTwice(Written(a, s), Written(b[..n], s), DataFor(b[n], s));
    }
  }

  lemma {:induction false} LogWritten(events: seq<Event>, follow: bool, s: Stream)
    ensures Written(LogOps(events, follow), s) == if s == Stdout then Logged(events, follow) else []
  {
    if events != [] {
      assert Written([], s) == [];
      if Ends(events[0], follow) {
        assert [Op.Flush(Stdout)][..0] == [];
      } else {
        var turn := TurnOps(events[0]);
        assert turn != [] ==> turn[..0] == [];
        assert Written(turn, s) == if events[0].Data? && s == Stdout then events[0].bytes else [];
        LogWritten(events[1..], follow, s);
        WrittenConcat(turn, LogOps(events[1..], follow), s);
      }
    }
  }

  lemma {:induction false} ReturnsFlushed(events: seq<Event>, follow: bool)
    requires Returns(events, follow)
    ensures LogOps(events, follow) != []
    ensures LogOps(events, follow)[|LogOps(events, follow)| - 1] == Op.Flush(Stdout)
  {
    if !Ends(events[0], follow) {
      var i :| 0 <= i < |events| && Ends(events[i], follow);
      assert events[1..][i - 1] == events[i];
      ReturnsFlushed(events[1..], follow);
    }
  }

  // For every chunking of the log and every moment at which the delayed flush
  // runs, a client demultiplexes exactly the bytes read before the loop ended.
  lemma {:induction false} LogsDemultiplex(events: seq<Event>, follow: bool)
    requires Returns(events, follow) && |Logged(events, follow)| < TWO32
    ensures Demux(Encode(Run(LogOps(events, follow)).frames), Stdout) == Some(Logged(events, follow))
  {
    hide LogOps, Run, Encode, Decode, Written;
    LogWritten(events, follow, Stdout);
    LogWritten(events, follow, Stderr);
    ReturnsFlushed(events, follow);
    FlushedDemux(LogOps(events, follow), Stdout);
  }

  // A log read to its end: reads and delayed flushes in any order, then EOF. A stop
  // can only be among them when it is not listened for.
  ghost predicate Reads(events: seq<Event>, follow: bool) {
    forall i :: 0 <= i < |events| ==> events[i].Data? || events[i].Wake? || (events[i].Stop? && !follow)
  }

  // The whole log, as the reads before EOF deliver it.
  function Content(events: seq<Event>): seq<Byte> {
    if events == [] then [] else (if events[0].Data? then events[0].bytes else []) + Content(events[1..])
  }

  // Without following, the first empty read ends the loop.
  ghost predicate NothingAfterEmpty(events: seq<Event>, follow: bool) {
    follow || forall i, j :: 0 <= i < j < |events| && events[i] == Data([]) && events[j].Data? ==> events[j].bytes == []
  }

  lemma {:induction false} NoContent(events: seq<Event>)
    ensures Content(events) == [] <==> forall j :: 0 <= j < |events| && events[j].Data? ==> events[j].bytes == []
  {
    if events != [] {
      NoContent(events[1..]);
      assert forall j :: 0 < j < |events| ==> events[j] == events[1..][j - 1];
      assert forall j :: 0 <= j < |events[1..]| ==> events[1..][j] == events[j + 1];
    }
  }

  lemma EmptyFirst(events: seq<Event>, follow: bool)
    requires events != []
    ensures NothingAfterEmpty(events, follow) <==>
              NothingAfterEmpty(events[1..], follow) && (follow || events[0] != Data([]) || Content(events[1..]) == [])
  {
    hide Content;
    var rest := events[1..];
    NoContent(rest);
    assert forall j :: 0 <= j < |rest| ==> rest[j] == events[j + 1];
    assert forall j :: 0 < j < |events| ==> events[j] == rest[j - 1];
  }

  // What is read before the loop ends: a part of the content, and all of it exactly
  // when no data follows an empty read.
  lemma {:induction false} LoggedContent(events: seq<Event>, tail: seq<Byte>, follow: bool)
    requires Reads(events, follow)
    ensures Logged(events + [Eof(tail)], follow) <= Content(events)
    ensures Logged(events + [Eof(tail)], follow) == Content(events) <==> NothingAfterEmpty(events, follow)
  {
    hide Logged, Content, NothingAfterEmpty;
    LoggedNext(events, tail, follow);
    if events == [] {
      EmptyAll(events, follow);
    } else {
      var rest := events[1..];
      LoggedContent(rest, tail, follow);
      EmptyFirst(events, follow);
      hide Reads;
      if Ends(events[0], follow) {
        if Content(rest) == [] { EmptyAll(rest, follow); }
      } else {
        SamePrefix(HeadBytes(events), Logged(rest + [Eof(tail)], follow), Content(rest));
      }
    }
  }

  function HeadBytes(events: seq<Event>): seq<Byte>
    requires events != []
  {
    if events[0].Data? then events[0].bytes else []
  }

  lemma LoggedNext(events: seq<Event>, tail: seq<Byte>, follow: bool)
    requires Reads(events, follow)
    ensures events == [] ==> Logged(events + [Eof(tail)], follow) == [] && Content(events) == []
    ensures events != [] ==>
              && Reads(events[1..], follow)
              && Content(events) == HeadBytes(events) + Content(events[1..])
              && (Ends(events[0], follow) ==> events[0] == Data([]) && !follow)
              && Logged(events + [Eof(tail)], follow) ==
                   if Ends(events[0], follow) then [] else HeadBytes(events) + Logged(events[1..] + [Eof(tail)], follow)
  {
    var all := events + [Eof(tail)];
    if events != [] {
      var rest := events[1..];
      assert forall j :: 0 <= j < |rest| ==> rest[j] == events[j + 1];
      assert all[0] == events[0] && all[1..] == rest + [Eof(tail)];
    }
  }

  lemma EmptyAll(events: seq<Event>, follow: bool)
    requires Content(events) == []
    ensures NothingAfterEmpty(events, follow)
  {
    NoContent(events);
  }

  lemma SamePrefix(head: seq<Byte>, a: seq<Byte>, b: seq<Byte>)
    requires a <= b
    ensures head + a <= head + b && (head + a == head + b <==> a == b)
  {
    assert a == (head + a)[|head|..] && b == (head + b)[|head|..];
  }

  // A log read to its end, for any chunking, with delayed flushes in between: it is
  // copied whole exactly when the read that reports EOF carries no data, because
  // those bytes are dropped, and, unless following, no data comes after an empty read.
  lemma {:induction false} WholeLogIff(events: seq<Event>, tail: seq<Byte>, follow: bool)
    requires Reads(events, follow) && |Content(events)| < TWO32
    ensures (Demux(Encode(Run(LogOps(events + [Eof(tail)], follow)).frames), Stdout)
             == Some(Content(events) + tail))
        <==> tail == [] && NothingAfterEmpty(events, follow)
  {
    hide LogOps, Run, Encode, Decode, Written, Demux, Logged, Content, NothingAfterEmpty;
    var all := events + [Eof(tail)];
    assert Ends(all[|events|], follow);
    LoggedContent(events, tail, follow);
    LogsDemultiplex(all, follow);
    assert |Content(events) + tail| == |Content(events)| + |tail|;
    assert Content(events) + [] == Content(events);
  }

  // A stop while following, or a read error, ends the copy at once: what was read before
  // is copied, and nothing after.
  lemma {:induction false} EndedEarly(events: seq<Event>, last: Event, after: seq<Event>, follow: bool)
    requires Reads(events, follow) && NothingAfterEmpty(events, follow) && |Content(events)| < TWO32
    requires last.Fail? || (last.Stop? && follow)
    ensures Demux(Encode(Run(LogOps(events + [last] + after, follow)).frames), Stdout) == Some(Content(events))
  {
    hide LogOps, Run, Encode, Decode, Written, Demux, Logged, Content, NothingAfterEmpty;
    var all := events + [last] + after;
    assert all[|events|] == last && Ends(all[|events|], follow);
    LoggedUpTo(events, last, after, follow);
    LoggedContent(events, [], follow);
    LogsDemultiplex(all, follow);
  }

  lemma {:induction false} LoggedUpTo(events: seq<Event>, last: Event, after: seq<Event>, follow: bool)
    requires Ends(last, follow)
    ensures Logged(events + [last] + after, follow) == Logged(events + [Eof([])], follow)
  {
    var all, other := events + [last] + after, events + [Eof([])];
    if events != [] {
      assert all[0] == events[0] == other[0];
      assert all[1..] == events[1..] + [last] + after && other[1..] == events[1..] + [Eof([])];
      LoggedUpTo(events[1..], last, after, follow);
    }
  }

  // A log of one byte that is lost either way: behind an empty read, or with EOF.
  lemma LostLogs()
    ensures var empty := [Data([]), Data([97])];
            Reads(empty, false) && !NothingAfterEmpty(empty, false)
            && Content(empty) == [97] && Logged(empty + [Eof([])], false) == []
    ensures Logged([Eof([97])], true) == [] && Logged([Eof([97])], false) == []
  {
    var empty := [Data([]), Data([97])];
    assert empty[0] == Data([]) && empty[1] == Data([97]);
    assert empty[1..] == [Data([97])] && empty[1..][1..] == [];
    assert (empty + [Eof([])])[0] == Data([]);
  }
}
