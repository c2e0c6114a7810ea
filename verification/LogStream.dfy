/** agent/internal/container/dockerapi.go: Docker's attach framing and the splitter that
    turns a demuxed stream into lines. Bytes are characters; framing makes only those
    below 256. */
module LogStream {

  const NL := '\n'
  const STDERR: char := 2 as char

  /** The splitter's backstop: 64 KiB. */
  const MAX_BUFFER := 65536

  // ---- the attach framing ----

  /** One frame: its stream type, three padding bytes, and its payload. */
  datatype Frame = Frame(kind: char, pad: (char, char, char), data: string)

  function FrameLength(header: string): nat
    requires |header| == 8
  {
    header[4] as int * 0x1000000 + header[5] as int * 0x10000 + header[6] as int * 0x100 + header[7] as int
  }

  function Header(f: Frame): (h: string)
    requires |f.data| < 0x1_0000_0000
    ensures |h| == 8 && h[0] == f.kind && FrameLength(h) == |f.data|
  {
    var n := |f.data|;
    var (a, b, c) := (n / 0x100, n / 0x100 / 0x100, n / 0x100 / 0x100 / 0x100);
    [f.kind, f.pad.0, f.pad.1, f.pad.2, c as char, (b % 0x100) as char, (a % 0x100) as char, (n % 0x100) as char]
  }

  predicate Framable(frames: seq<Frame>) {
    forall f :: f in frames ==> |f.data| < 0x1_0000_0000
  }

  function Encode(frames: seq<Frame>): string
    requires Framable(frames)
  {
    if frames == [] then [] else Header(frames[0]) + frames[0].data + Encode(frames[1..])
  }

  /** What was written to stdout, or to stderr (type 2). */
  function Payload(frames: seq<Frame>, stderr: bool): string {
    if frames == [] then []
    else (if (frames[0].kind == STDERR) == stderr then frames[0].data else []) + Payload(frames[1..], stderr)
  }

  /** What a reader of `r` gets: both streams, and whether it ends without an error. */
  datatype Demuxed = Demuxed(stdout: string, stderr: string, ok: bool)

  function Demux(r: string): Demuxed
    decreases |r|
  {
    if |r| < 8 then Demuxed([], [], true)
    else
      var n := FrameLength(r[..8]);
      if |r| - 8 < n then Routed(r[0], r[8..], Demuxed([], [], false))
      else Routed(r[0], r[8..8 + n], Demux(r[8 + n..]))
  }

  function Routed(kind: char, data: string, rest: Demuxed): Demuxed {
    if kind == STDERR then rest.(stderr := data + rest.stderr) else rest.(stdout := data + rest.stdout)
  }

  lemma {:induction false} DemuxAt(r: string, at: nat)
    requires at + 8 <= |r|
    ensures var n := FrameLength(r[at..at + 8]);
            Demux(r[at..]) == if at + 8 + n <= |r| then Routed(r[at], r[at + 8..at + 8 + n], Demux(r[at + 8 + n..]))
                              else Routed(r[at], r[at + 8..], Demuxed([], [], false))
  {
    var n, q := FrameLength(r[at..at + 8]), r[at..];
    assert q[..8] == r[at..at + 8] && q[8..] == r[at + 8..];
    if at + 8 + n <= |r| {
      assert q[8..8 + n] == r[at + 8..at + 8 + n] && q[8 + n..] == r[at + 8 + n..];
    }
  }

  lemma {:induction false} DemuxEnd(r: string)
    requires |r| < 8
    ensures Demux(r) == Demuxed([], [], true)
  {
  }

  /** The framing byte by byte: type 2 is stderr and any other stdout, bytes 4 to 7 are the
      length with the highest first, and a payload that is cut short is delivered and an error. */
  lemma {:induction false} DemuxPlainly(r: string)
    ensures |r| < 8 ==> Demux(r) == Demuxed([], [], true)
    ensures |r| >= 8 ==>
              var n := 16777216 * r[4] as int + 65536 * r[5] as int + 256 * r[6] as int + r[7] as int;
              var whole := 8 + n <= |r|;
              var data := if whole then r[8..8 + n] else r[8..];
              var rest := if whole then Demux(r[8 + n..]) else Demuxed([], [], false);
              && Demux(r).ok == rest.ok
              && Demux(r).stderr == (if r[0] == '\U{0002}' then data else []) + rest.stderr
              && Demux(r).stdout == (if r[0] == '\U{0002}' then [] else data) + rest.stdout
  {
    if |r| >= 8 {
      var h := r[..8];
      assert h[4] == r[4] && h[5] == r[5] && h[6] == r[6] && h[7] == r[7];
    }
  }

  /** demuxDockerStream, on a reader that ends after `r`. */
  method DemuxDockerStream(r: string) returns (stdout: string, stderr: string, ok: bool)
    ensures Demuxed(stdout, stderr, ok) == Demux(r)
  {
    hide FrameLength, Demux, After, Routed;
    stdout, stderr := [], [];
    var at := 0;
    assert r[0..] == r;
    AfterNothing(Demux(r).stdout, Demux(r).stderr, Demux(r).ok);
    while |r| - at >= 8
      invariant 0 <= at <= |r|
      invariant Demux(r) == After(stdout, stderr, Demux(r[at..]))
      decreases |r| - at
    {
      DemuxAt(r, at);
      var length := FrameLength(r[at..at + 8]);
      ok := length <= |r| - at - 8;
      var data := if ok then r[at + 8..at + 8 + length] else r[at + 8..];
      ghost var rest := if ok then Demux(r[at + 8 + length..]) else Demuxed([], [], false);
      AfterFrame(stdout, stderr, r[at], data, rest);
      if r[at] == STDERR { stderr := stderr + data; } else { stdout := stdout + data; }
      assert Demux(r) == After(stdout, stderr, rest);
      if !ok {
        AfterNothing(stdout, stderr, false);
        return;
      }
      at := at + 8 + length;
    }
    DemuxEnd(r[at..]);
    AfterNothing(stdout, stderr, true);
    ok := true;
  }

  function After(stdout: string, stderr: string, d: Demuxed): Demuxed {
    Demuxed(stdout + d.stdout, stderr + d.stderr, d.ok)
  }

  lemma {:induction false} AfterFrame(stdout: string, stderr: string, kind: char, data: string, rest: Demuxed)
    ensures After(stdout, stderr, Routed(kind, data, rest)) ==
              if kind == STDERR then After(stdout, stderr + data, rest) else After(stdout + data, stderr, rest)
  {
    assert stdout + data + rest.stdout == stdout + (data + rest.stdout);
    assert stderr + data + rest.stderr == stderr + (data + rest.stderr);
  }

  lemma {:induction false} AfterNothing(stdout: string, stderr: string, ok: bool)
    ensures After(stdout, stderr, Demuxed([], [], ok)) == Demuxed(stdout, stderr, ok)
    ensures After([], [], Demuxed(stdout, stderr, ok)) == Demuxed(stdout, stderr, ok)
  {
  }

  lemma {:induction false} DemuxFrame(f: Frame, rest: string)
    requires |f.data| < 0x1_0000_0000
    ensures Demux(Header(f) + f.data + rest) == Routed(f.kind, f.data, Demux(rest))
  {
    var r := Header(f) + f.data + rest;
    assert r[..8] == Header(f) && r[8..8 + |f.data|] == f.data && r[8 + |f.data|..] == rest;
  }

  /** Demuxing the frames of any writes gives back what was written to each stream. */
  lemma {:induction false} DemuxEncode(frames: seq<Frame>)
    requires Framable(frames)
    ensures Demux(Encode(frames)) == Demuxed(Payload(frames, false), Payload(frames, true), true)
  {
    if frames != [] {
      DemuxEncode(frames[1..]);
      DemuxFrame(frames[0], Encode(frames[1..]));
    }
  }

  /** `d` is what a reader gets of these frames cut short: a prefix of each output, and an
      error exactly when the cut falls inside a payload. */
  ghost predicate Partial(d: Demuxed, frames: seq<Frame>, cut: nat) {
    d.stdout <= Payload(frames, false) && d.stderr <= Payload(frames, true) && (d.ok <==> !InPayload(frames, cut))
  }

  /** A stream may be cut anywhere; a cut inside a header goes unnoticed. */
  lemma {:induction false} DemuxCut(frames: seq<Frame>, cut: nat)
    requires Framable(frames) && cut <= |Encode(frames)|
    ensures Partial(Demux(Encode(frames)[..cut]), frames, cut)
  {
    if frames != [] {
      var f, rest := frames[0], frames[1..];
      assert Framable(rest) && |f.data| < 0x1_0000_0000;
      hide FrameLength, Header, Demux, Framable, Partial, Routed;
      if cut >= 8 + |f.data| {
        var more := cut - 8 - |f.data|;
        CutLater(Header(f) + f.data, Encode(rest), more);
        DemuxFrame(f, Encode(rest)[..more]);
        DemuxCut(rest, more);
        PartialLater(Demux(Encode(rest)[..more]), frames, cut);
      } else {
        DemuxShort(f, Encode(rest), cut);
        PartialHere(frames, cut);
      }
    }
  }

  lemma {:induction false} PartialLater(d: Demuxed, frames: seq<Frame>, cut: nat)
    requires frames != [] && cut >= 8 + |frames[0].data| && Partial(d, frames[1..], cut - 8 - |frames[0].data|)
    ensures Partial(Routed(frames[0].kind, frames[0].data, d), frames, cut)
  {
  }

  lemma {:induction false} PartialHere(frames: seq<Frame>, cut: nat)
    requires frames != [] && cut < 8 + |frames[0].data|
    ensures Partial(if cut < 8 then Demuxed([], [], true)
            else Routed(frames[0].kind, frames[0].data[..cut - 8], Demuxed([], [], false)), frames, cut)
  {
  }

  lemma {:induction false} CutLater(frame: string, rest: string, more: nat)
    requires more <= |rest|
    ensures (frame + rest)[..|frame| + more] == frame + rest[..more]
  {
  }

  lemma {:induction false} DemuxShort(f: Frame, rest: string, cut: nat)
    requires |f.data| < 0x1_0000_0000 && cut < 8 + |f.data|
    ensures Demux((Header(f) + f.data + rest)[..cut]) ==
              if cut < 8 then Demuxed([], [], true) else Routed(f.kind, f.data[..cut - 8], Demuxed([], [], false))
  {
    var r := (Header(f) + f.data + rest)[..cut];
    if cut >= 8 {
      assert r[..8] == Header(f) && r[8..] == f.data[..cut - 8];
    }
  }

  /** The cut loses part of a payload whose header it keeps. */
  predicate InPayload(frames: seq<Frame>, cut: nat) {
    frames != [] && cut >= 8
    && (cut < 8 + |frames[0].data| || InPayload(frames[1..], cut - 8 - |frames[0].data|))
  }

  // ---- lines ----

  /** What follows the last newline. */
  function Tail(x: string): string {
    if x == [] || x[|x| - 1] == NL then [] else Tail(x[..|x| - 1]) + [x[|x| - 1]]
  }

  /** The lines that a newline ends. */
  function Complete(x: string): seq<string> {
    if x == [] then []
    else Complete(x[..|x| - 1]) + if x[|x| - 1] == NL then [Tail(x[..|x| - 1])] else []
  }

  /** The newline split of a stream: its lines, the last of which may lack its newline. */
  function Lines(x: string): seq<string> {
    Complete(x) + if Tail(x) == [] then [] else [Tail(x)]
  }

  lemma {:induction false} SplitSnoc(x: string, c: char)
    ensures Tail(x + [c]) == if c == NL then [] else Tail(x) + [c]
    ensures Complete(x + [c]) == Complete(x) + if c == NL then [Tail(x)] else []
  {
    assert (x + [c])[..|x|] == x;
  }

  lemma {:induction false} SplitMore(x: string, p: string)
    ensures Complete(x + p) == Complete(x) + Complete(Tail(x) + p)
    ensures Tail(x + p) == Tail(Tail(x) + p)
  {
    if p == [] {
      assert x + p == x && Tail(x) + p == Tail(x);
      TailHasNone(x);
      NoNewline(Tail(x));
    } else {
      hide Tail, Complete;
      var init, last := p[..|p| - 1], p[|p| - 1];
      SplitMore(x, init);
      Associates(x, init, [last]);
      Associates(Tail(x), init, [last]);
      assert p == init + [last];
      SplitSnoc(x + init, last);
      SplitSnoc(Tail(x) + init, last);
      Associates(Complete(x), Complete(Tail(x) + init), if last == NL then [Tail(Tail(x) + init)] else []);
    }
  }

  lemma {:induction false} Associates<T>(a: seq<T>, b: seq<T>, c: seq<T>)
    ensures (a + b) + c == a + (b + c)
  {
  }

  lemma {:induction false} TailHasNone(x: string)
    ensures NL !in Tail(x)
  {
    if x != [] && x[|x| - 1] != NL { TailHasNone(x[..|x| - 1]); }
  }

  lemma {:induction false} NoNewline(x: string)
    requires NL !in x
    ensures Complete(x) == [] && Tail(x) == x
  {
    if x != [] {
      NoNewline(x[..|x| - 1]);
      assert x == x[..|x| - 1] + [x[|x| - 1]];
    }
  }

  /** How many lines end in `p`, and what is left after them, whatever came before. */
  lemma {:induction false} AfterNewline(a: string, b: string, p: string)
    requires NL !in a && NL !in b
    ensures |Complete(a + p)| == |Complete(b + p)|
    ensures NL in p ==> Tail(a + p) == Tail(b + p)
    ensures NL !in p ==> Tail(a + p) == a + p && Complete(a + p) == []
  {
    if p == [] {
      assert a + p == a && b + p == b;
      NoNewline(a);
      NoNewline(b);
    } else {
      var init, last := p[..|p| - 1], p[|p| - 1];
      AfterNewline(a, b, init);
      assert (a + p)[..|a + p| - 1] == a + init && (b + p)[..|b + p| - 1] == b + init;
      assert p == init + [last];
      if NL !in p { NoNewline(a + p); }
    }
  }

  // ---- the splitter ----

  datatype Split = Split(emitted: seq<string>, buf: string)

  /** One write: emit every ended line, and the rest too if it has grown too long. */
  function Fed(s: Split, p: string): Split {
    var x := s.buf + p;
    if |Tail(x)| > MAX_BUFFER then Split(s.emitted + Complete(x) + [Tail(x)], [])
    else Split(s.emitted + Complete(x), Tail(x))
  }

  function Flushed(s: Split): seq<string> {
    s.emitted + if s.buf == [] then [] else [s.buf]
  }

  function Joined(chunks: seq<string>): string {
    if chunks == [] then [] else Joined(chunks[..|chunks| - 1]) + chunks[|chunks| - 1]
  }

  function FedAll(chunks: seq<string>): Split {
    if chunks == [] then Split([], []) else Fed(FedAll(chunks[..|chunks| - 1]), chunks[|chunks| - 1])
  }

  /** logLineSplitter. The parsing of each line's timestamp is not modelled. */
  class LogLineSplitter {
    var emitted: seq<string>
    var buf: string

    constructor ()
      ensures emitted == [] && buf == []
    {
      emitted, buf := [], [];
    }

    method Write(p: string)
      modifies this
      ensures Split(emitted, buf) == Fed(Split(old(emitted), old(buf)), p)
      ensures |buf| <= MAX_BUFFER
    {
      ghost var before, x := emitted, buf + p;
      buf := buf + p;
      var i := IndexOfNewline(buf);
      while i >= 0
        invariant -1 <= i < |buf| && (i >= 0 ==> buf[i] == NL && NL !in buf[..i]) && (i < 0 ==> NL !in buf)
        invariant emitted + Complete(buf) == before + Complete(x) && Tail(buf) == Tail(x)
        decreases |buf|
      {
        FirstLine(buf, i);
        ghost var rest := Complete(buf[i + 1..]);
        assert emitted + ([buf[..i]] + rest) == (emitted + [buf[..i]]) + rest;
        emitted := emitted + [buf[..i]];
        buf := buf[i + 1..];
        i := IndexOfNewline(buf);
      }
      NoNewline(buf);
      if |buf| > MAX_BUFFER {
        emitted := emitted + [buf];
        buf := [];
      }
    }

    method Flush()
      modifies this
      ensures emitted == Flushed(Split(old(emitted), old(buf))) && buf == []
    {
      if |buf| > 0 {
        emitted := emitted + [buf];
        buf := [];
      }
    }
  }

  method IndexOfNewline(s: string) returns (i: int)
    ensures -1 <= i < |s|
    ensures i >= 0 ==> s[i] == NL && NL !in s[..i]
    ensures i < 0 ==> NL !in s
  {
    for k := 0 to |s|
      invariant NL !in s[..k]
    {
      if s[k] == NL { return k; }
    }
    return -1;
  }

  lemma {:induction false} FirstLine(x: string, i: nat)
    requires i < |x| && x[i] == NL && NL !in x[..i]
    ensures Complete(x) == [x[..i]] + Complete(x[i + 1..]) && Tail(x) == Tail(x[i + 1..])
  {
    var line, rest := x[..i + 1], x[i + 1..];
    EndedLine(line);
    SplitMore(line, rest);
    assert line[..i] == x[..i];
    assert x == line + rest && [] + rest == rest;
  }

  lemma {:induction false} EndedLine(line: string)
    requires line != [] && line[|line| - 1] == NL && NL !in line[..|line| - 1]
    ensures Complete(line) == [line[..|line| - 1]] && Tail(line) == []
  {
    NoNewline(line[..|line| - 1]);
  }

  // ---- what is emitted ----

  function Flat(lines: seq<string>): string {
    if lines == [] then [] else Flat(lines[..|lines| - 1]) + lines[|lines| - 1]
  }

  function WithoutNewlines(x: string): string {
    if x == [] then []
    else WithoutNewlines(x[..|x| - 1]) + if x[|x| - 1] == NL then [] else [x[|x| - 1]]
  }

  lemma {:induction false} FlatMore(a: seq<string>, b: seq<string>)
    ensures Flat(a + b) == Flat(a) + Flat(b)
  {
    if b == [] {
      assert a + b == a;
    } else {
      assert (a + b)[..|a + b| - 1] == a + b[..|b| - 1];
      FlatMore(a, b[..|b| - 1]);
    }
  }

  lemma {:induction false} WithoutMore(x: string, p: string)
    ensures WithoutNewlines(x + p) == WithoutNewlines(x) + WithoutNewlines(p)
  {
    if p == [] {
      assert x + p == x;
    } else {
      assert (x + p)[..|x + p| - 1] == x + p[..|p| - 1];
      WithoutMore(x, p[..|p| - 1]);
    }
  }

  lemma {:induction false} SplitConserves(x: string)
    ensures Flat(Complete(x)) + Tail(x) == WithoutNewlines(x)
  {
    if x != [] {
      var init, last := x[..|x| - 1], x[|x| - 1];
      SplitConserves(init);
      if last == NL {
        FlatMore(Complete(init), [Tail(init)]);
        assert [Tail(init)][..0] == [];
        assert Flat([Tail(init)]) == Tail(init);
      } else {
        assert Complete(init) + [] == Complete(init);
      }
    }
  }

  lemma {:induction false} FlatOne(line: string)
    ensures Flat([line]) == line
  {
    assert [line][..0] == [];
  }

  lemma {:induction false} FedConserves(s: Split, p: string)
    ensures Flat(Fed(s, p).emitted) + Fed(s, p).buf == Flat(s.emitted) + WithoutNewlines(s.buf + p)
  {
    hide Complete, Tail, WithoutNewlines, Flat;
    var x := s.buf + p;
    SplitConserves(x);
    FlatMore(s.emitted, Complete(x));
    FlatMore(s.emitted + Complete(x), [Tail(x)]);
    FlatOne(Tail(x));
  }

  // ---- the split in terms of the bytes ----

  /** Each line with its newline. */
  function Ended(lines: seq<string>): string {
    if lines == [] then [] else Ended(lines[..|lines| - 1]) + lines[|lines| - 1] + "\n"
  }

  lemma {:induction false} EndedMore(lines: seq<string>, line: string)
    ensures Ended(lines + [line]) == Ended(lines) + line + "\n"
  {
    assert (lines + [line])[..|lines|] == lines;
  }

  /** The split is the one way to cut the stream after its newlines. */
  lemma {:induction false} SplitRejoins(x: string)
    ensures Ended(Complete(x)) + Tail(x) == x
    ensures '\n' !in Tail(x) && forall line :: line in Complete(x) ==> '\n' !in line
  {
    TailHasNone(x);
    if x != [] {
      var init, last := x[..|x| - 1], x[|x| - 1];
      SplitRejoins(init);
      assert x == init + [last];
      if last == NL {
        EndedMore(Complete(init), Tail(init));
        assert Ended(Complete(x)) + Tail(x) == Ended(Complete(init)) + Tail(init) + "\n";
      } else {
        assert Complete(x) == Complete(init);
        assert Ended(Complete(init)) + (Tail(init) + [last]) == (Ended(Complete(init)) + Tail(init)) + [last];
      }
    }
  }

  /** One write: the lines it emits and what it keeps make up what it had and was given. It
      keeps what follows the last newline up to 64 KiB, and emits it beyond. */
  lemma {:induction false} WritePlainly(s: Split, p: string) returns (lines: seq<string>, rest: string)
    ensures Ended(lines) + rest == s.buf + p
    ensures '\n' !in rest && forall line :: line in lines ==> '\n' !in line
    ensures Fed(s, p) == if |rest| > 65536 then Split(s.emitted + lines + [rest], [])
                         else Split(s.emitted + lines, rest)
  {
    lines, rest := Complete(s.buf + p), Tail(s.buf + p);
    SplitRejoins(s.buf + p);
  }

  /** The tail is what follows the last newline. */
  lemma {:induction false} TailIs(x: string)
    ensures |Tail(x)| <= |x| && Tail(x) == x[|x| - |Tail(x)|..] && '\n' !in Tail(x)
    ensures |Tail(x)| < |x| ==> x[|x| - |Tail(x)| - 1] == '\n'
  {
    if x != [] && x[|x| - 1] != NL {
      TailIs(x[..|x| - 1]);
      assert x == x[..|x| - 1] + [x[|x| - 1]];
    }
  }

  /** No byte is lost or made up but for newlines, however the stream was chunked. */
  lemma {:induction false} BytesConserved(chunks: seq<string>)
    ensures Flat(FedAll(chunks).emitted) + FedAll(chunks).buf == WithoutNewlines(Joined(chunks))
  {
    if chunks != [] {
      hide Complete, Tail, WithoutNewlines, Flat, Fed;
      var init, p := chunks[..|chunks| - 1], chunks[|chunks| - 1];
      var s := FedAll(init);
      BytesConserved(init);
      FedConserves(s, p);
      BufferBounded(init);
      OwnBytes(s.buf);
      WithoutMore(s.buf, p);
      WithoutMore(Joined(init), p);
    } else {
      assert Flat([]) == [] && WithoutNewlines([]) == [];
    }
  }

  /** The buffer never holds a newline, nor more than 64 KiB after a write. */
  lemma {:induction false} BufferBounded(chunks: seq<string>)
    ensures |FedAll(chunks).buf| <= MAX_BUFFER && NL !in FedAll(chunks).buf
  {
    if chunks != [] {
      TailHasNone(FedAll(chunks[..|chunks| - 1]).buf + chunks[|chunks| - 1]);
    }
  }

  lemma {:induction false} OwnBytes(x: string)
    requires NL !in x
    ensures WithoutNewlines(x) == x
  {
    if x != [] {
      OwnBytes(x[..|x| - 1]);
      assert x == x[..|x| - 1] + [x[|x| - 1]];
    }
  }

  /** Some write, with more to come, left an unended line longer than the buffer may be. */
  ghost predicate Overflows(chunks: seq<string>) {
    exists k :: OverflowsAt(chunks, k)
  }

  predicate OverflowsAt(chunks: seq<string>, k: nat) {
    k <= |chunks| && |Tail(Joined(chunks[..k]))| > MAX_BUFFER && Joined(chunks[k..]) != []
  }

  lemma {:induction false} JoinedMore(a: seq<string>, b: seq<string>)
    ensures Joined(a + b) == Joined(a) + Joined(b)
  {
    if b == [] {
      assert a + b == a;
    } else {
      assert (a + b)[..|a + b| - 1] == a + b[..|b| - 1];
      JoinedMore(a, b[..|b| - 1]);
    }
  }

  lemma {:induction false} OverflowsEarlier(init: seq<string>, p: string, k: nat)
    requires k <= |init|
    ensures OverflowsAt(init + [p], k) <==>
              |Tail(Joined(init[..k]))| > MAX_BUFFER && (Joined(init[k..]) != [] || p != [])
  {
    var all := init + [p];
    assert all[..k] == init[..k] && all[k..] == init[k..] + [p];
    JoinedMore(init[k..], [p]);
    assert [p][..0] == [];
    assert Joined([p]) == p;
  }

  lemma {:induction false} NotEarlier(init: seq<string>, p: string)
    requires !Overflows(init + [p])
    ensures !Overflows(init)
  {
    if k: nat :| OverflowsAt(init, k) {
      OverflowsEarlier(init, p, k);
    }
  }

  /** Without an overflow the splitter has just split, or has just emitted the tail too. */
  lemma {:induction false} FedClean(chunks: seq<string>)
    requires !Overflows(chunks)
    ensures var s, x := FedAll(chunks), Joined(chunks);
            || s == Split(Complete(x), Tail(x))
            || (|Tail(x)| > MAX_BUFFER && s == Split(Complete(x) + [Tail(x)], []))
  {
    if chunks != [] {
      var init, p := chunks[..|chunks| - 1], chunks[|chunks| - 1];
      assert chunks == init + [p];
      var s, x := FedAll(init), Joined(init);
      NotEarlier(init, p);
      FedClean(init);
      SplitMore(x, p);
      if s != Split(Complete(x), Tail(x)) {
        OverflowsEarlier(init, p, |init|);
        assert init[..|init|] == init;
        assert !OverflowsAt(chunks, |init|);
        assert p == [];
        assert x + p == x && s.buf + p == [];
      }
    }
  }

  /** The splitter has emitted a line too many. */
  predicate Spoilt(s: Split, x: string) {
    |Flushed(s)| > |Lines(x)|
  }

  /** The buffer holds the end of the line so far. */
  predicate Ends(s: Split, x: string) {
    |s.buf| <= |Tail(x)| && Tail(x)[|Tail(x)| - |s.buf|..] == s.buf
  }

  lemma {:induction false} FedEnds(chunks: seq<string>)
    ensures Ends(FedAll(chunks), Joined(chunks))
  {
    if chunks != [] {
      hide Fed, Ends;
      var init, p := chunks[..|chunks| - 1], chunks[|chunks| - 1];
      FedEnds(init);
      BufferBounded(init);
      StepEnds(FedAll(init), Joined(init), p);
    } else {
      assert Tail([]) == [];
    }
  }

  lemma {:induction false} StepEnds(s: Split, x: string, p: string)
    requires Ends(s, x) && NL !in s.buf
    ensures Ends(Fed(s, p), x + p)
  {
    TailHasNone(x);
    SplitMore(x, p);
    hide Complete, Tail;
    var t := Tail(x);
    AfterNewline(t, s.buf, p);
    AfterNewline(s.buf, t, p);
    if NL !in p {
      assert (t + p)[|t| - |s.buf|..] == s.buf + p;
    }
  }

  /** Once a line too many is out, it stays so. */
  lemma {:induction false} StaysSpoilt(s: Split, x: string, p: string)
    requires Ends(s, x) && NL !in s.buf && |s.buf| <= MAX_BUFFER
    requires |s.emitted| > |Complete(x)| && (p != [] || Spoilt(s, x))
    ensures Spoilt(Fed(s, p), x + p) && |Fed(s, p).emitted| > |Complete(x + p)|
  {
    TailHasNone(x);
    SplitMore(x, p);
    NoNewline(s.buf);
    hide Complete, Tail;
    AfterNewline(Tail(x), s.buf, p);
    AfterNewline(s.buf, Tail(x), p);
    assert p == [] ==> x + p == x && s.buf + p == s.buf;
  }

  lemma {:induction false} NothingOverflows()
    ensures !Overflows([])
  {
    var none: seq<string> := [];
    assert Joined(none[0..]) == [];
  }

  lemma {:induction false} FedSpoils(chunks: seq<string>)
    requires Overflows(chunks)
    ensures Spoilt(FedAll(chunks), Joined(chunks)) && |FedAll(chunks).emitted| > |Complete(Joined(chunks))|
  {
    if chunks == [] {
      NothingOverflows();
    } else {
      hide Complete, Tail, Fed, Spoilt, Ends, Overflows;
      var init, p := chunks[..|chunks| - 1], chunks[|chunks| - 1];
      assert chunks == init + [p];
      FedEnds(init);
      BufferBounded(init);
      if Overflows(init) {
        FedSpoils(init);
      } else {
        JustOverflowed(init, p);
      }
      StaysSpoilt(FedAll(init), Joined(init), p);
    }
  }

  lemma {:induction false} NothingAfterAll(chunks: seq<string>)
    ensures !OverflowsAt(chunks, |chunks|)
  {
    assert chunks[|chunks|..] == [];
  }

  /** The state at the first overflow. */
  lemma {:induction false} JustOverflowed(init: seq<string>, p: string)
    requires Overflows(init + [p]) && !Overflows(init)
    ensures p != [] && |FedAll(init).emitted| > |Complete(Joined(init))|
  {
    hide Complete, Tail, Fed, FedAll;
    var chunks := init + [p];
    var k: nat :| OverflowsAt(chunks, k);
    NothingAfterAll(chunks);
    if k < |chunks| {
      OverflowsEarlier(init, p, k);
      assert !OverflowsAt(init, k);
      assert Joined(init[k..]) == [];
      assert init[..k] + init[k..] == init;
      JoinedMore(init[..k], init[k..]);
      assert Joined(init) == Joined(init[..k]);
      FedClean(init);
      BufferBounded(init);
    }
  }

  /** The lines after a flush are the stream's own exactly when no write, with more to
      come, left an unended line of more than 64 KiB. */
  lemma {:induction false} LinesExactly(chunks: seq<string>)
    ensures Flushed(FedAll(chunks)) == Lines(Joined(chunks)) <==> !Overflows(chunks)
  {
    if Overflows(chunks) { FedSpoils(chunks); } else { FedClean(chunks); }
  }

  /** No line of the stream is too long to be split wherever the writes fall: an ended line
      may have 64 KiB, the last one a byte more. */
  predicate Short(x: string) {
    forall k :: 0 <= k < |x| ==> |Tail(x[..k])| <= MAX_BUFFER
  }

  /** In terms of the bytes: no stretch without a newline that more follows is over 64 KiB. */
  lemma {:induction false} ShortPlainly(x: string)
    ensures Short(x) <==> forall i, j :: 0 <= i <= j < |x| && '\n' !in x[i..j] ==> j - i <= 65536
  {
    hide Tail;
    forall k | 0 <= k < |x| ensures var n := |Tail(x[..k])|; n <= k && '\n' !in x[k - n..k] {
      TailIs(x[..k]);
      assert x[..k][k - |Tail(x[..k])|..] == x[k - |Tail(x[..k])|..k];
    }
    forall i, j | 0 <= i <= j < |x| && '\n' !in x[i..j] ensures j - i <= |Tail(x[..j])| {
      TailIs(x[..j]);
      var n := |Tail(x[..j])|;
      forall m | i <= m < j ensures x[m] != '\n' { assert x[i..j][m - i] == x[m]; }
      assert n < j ==> x[j - n - 1] == '\n';
    }
  }

  ghost predicate Chunks(chunks: seq<string>, x: string) {
    Joined(chunks) == x
  }

  lemma {:induction false} ShortNeverOverflows(chunks: seq<string>, x: string)
    requires Short(x) && Joined(chunks) == x
    ensures !Overflows(chunks)
  {
    forall k: nat ensures !OverflowsAt(chunks, k) {
      if k <= |chunks| && Joined(chunks[k..]) != [] {
        JoinedMore(chunks[..k], chunks[k..]);
        assert chunks[..k] + chunks[k..] == chunks;
        assert x[..|Joined(chunks[..k])|] == Joined(chunks[..k]);
      }
    }
  }

  /** Every chunking of a stream gives its own lines exactly when the stream is short. */
  lemma {:induction false} AnyChunking(x: string)
    ensures (forall chunks :: Chunks(chunks, x) ==> Flushed(FedAll(chunks)) == Lines(x)) <==> Short(x)
  {
    hide FedAll, Lines, Flushed;
    if Short(x) {
      forall chunks | Chunks(chunks, x) ensures Flushed(FedAll(chunks)) == Lines(x) {
        ShortNeverOverflows(chunks, x);
        LinesExactly(chunks);
      }
    } else {
      var k :| 0 <= k < |x| && |Tail(x[..k])| > MAX_BUFFER;
      var chunks := [x[..k], x[k..]];
      TwoChunks(x, k);
      assert OverflowsAt(chunks, 1);
      LinesExactly(chunks);
      assert Chunks(chunks, x);
    }
  }

  /** Framing and splitting compose: whatever is written to a stream in lines that are not
      too long, and however it is read, is what the follower of that stream is given. */
  lemma {:induction false} FollowedLines(frames: seq<Frame>, outChunks: seq<string>, errChunks: seq<string>)
    requires Framable(frames) && Short(Payload(frames, false)) && Short(Payload(frames, true))
    requires Joined(outChunks) == Demux(Encode(frames)).stdout && Joined(errChunks) == Demux(Encode(frames)).stderr
    ensures Flushed(FedAll(outChunks)) == Lines(Payload(frames, false))
            && Flushed(FedAll(errChunks)) == Lines(Payload(frames, true))
  {
    DemuxEncode(frames);
    AnyChunking(Payload(frames, false));
    AnyChunking(Payload(frames, true));
    assert Chunks(outChunks, Payload(frames, false)) && Chunks(errChunks, Payload(frames, true));
  }

  lemma {:induction false} TwoChunks(x: string, k: nat)
    requires k <= |x|
    ensures var c := [x[..k], x[k..]]; Joined(c) == x && Joined(c[..1]) == x[..k] && Joined(c[1..]) == x[k..]
  {
    var c := [x[..k], x[k..]];
    assert c[..1] == [x[..k]] && c[1..] == [x[k..]] && c == [x[..k]] + [x[k..]];
    JoinedMore([x[..k]], [x[k..]]);
    JoinedOne(x[..k]);
    JoinedOne(x[k..]);
  }

  lemma {:induction false} JoinedOne(p: string)
    ensures Joined([p]) == p
  {
    assert [p][..0] == [];
  }
}
