/** The non-buffering chunked-body checker (RFC 9112, section 7.1). */
module ChunkedDecoder {
  import opened Text

  datatype Phase = SizeLine | Data | DataCr | DataLf | TrailerLine | Complete | Error

  datatype Status = NeedMoreData | Done | Failed

  datatype Limits = Limits(maxBody: nat, maxLine: nat)

  /** Everything the decoder remembers between calls. */
  datatype State = State(phase: Phase, line: string, sawCr: bool, remaining: nat, decoded: nat)

  const INITIAL: State := State(SizeLine, "", false, 0, 0)

  function StatusOf(phase: Phase): Status {
    match phase
    case Complete => Done
    case Error => Failed
    case _ => NeedMoreData
  }

  ghost predicate Consistent(limits: Limits, st: State) {
    && st.decoded <= limits.maxBody
    && st.remaining <= st.decoded
    && |st.line| <= limits.maxLine
    && (st.phase == Data ==> st.remaining > 0)
    && (st.phase in {SizeLine, DataCr, DataLf, TrailerLine, Complete} ==> st.remaining == 0)
    && (st.phase in {Data, DataCr, DataLf, Complete} ==> st.line == "" && !st.sawCr)
  }

  // ---------------------------------------------------------------- specification

  /** The number part of a size line: everything before the first semicolon. */
  function SizeText(line: string): string {
    var semicolon := Find(line, ";", 0);
    if semicolon.Some? then line[..semicolon.value] else line
  }

  /** The size a size line announces. */
  function ChunkSize(line: string): Option<nat> { SizeOf(16, SizeText(line)) }

  predicate ForbiddenTrailer(name: string) {
    Lower(name) in {"content-length", "transfer-encoding", "host"}
  }

  predicate TrailerAccepted(line: string) {
    var colon := Find(line, ":", 0);
    colon.Some? && colon.value > 0 && AllToken(line[..colon.value]) && !ForbiddenTrailer(line[..colon.value])
  }

  /** What a complete size or trailer line does. */
  function FinishLine(limits: Limits, st: State, line: string): State
    requires st.phase == SizeLine || st.phase == TrailerLine
  {
    var cleared := st.(line := "", sawCr := false);
    if st.phase == SizeLine then
      var size := ChunkSize(line);
      if size.None? || st.decoded + size.value > limits.maxBody then cleared.(phase := Error)
      else if size.value == 0 then cleared.(phase := TrailerLine)
      else cleared.(phase := Data, decoded := st.decoded + size.value, remaining := size.value)
    else if line == "" then cleared.(phase := Complete)
    else if TrailerAccepted(line) then cleared
    else cleared.(phase := Error)
  }

  /** One octet at a time: the reference machine the bulk loop must agree with. */
  function Step(limits: Limits, st: State, c: char): State {
    match st.phase
    case Error => st
    case Complete => st.(phase := Error)
    case Data =>
      if st.remaining <= 1 then st.(remaining := 0, phase := DataCr) else st.(remaining := st.remaining - 1)
    case DataCr => st.(phase := if c == '\r' then DataLf else Error)
    case DataLf => st.(phase := if c == '\n' then SizeLine else Error)
    case _ =>
      if st.sawCr then
        if c == '\n' then FinishLine(limits, st, st.line) else st.(phase := Error, sawCr := false)
      else if c == '\r' then st.(sawCr := true)
      else if c == '\n' || |st.line| >= limits.maxLine then st.(phase := Error)
      else st.(line := st.line + [c])
  }

  function Feed(limits: Limits, st: State, bytes: string): State
    decreases |bytes|
  {
    if bytes == "" then st else Feed(limits, Step(limits, st, bytes[0]), bytes[1..])
  }

  /** A call: a finished decoder answers without moving. */
  function Called(limits: Limits, st: State, bytes: string): (State, Status) {
    if st.phase == Complete then (st, if bytes == "" then Done else Failed)
    else var st' := Feed(limits, st, bytes); (st', StatusOf(st'.phase))
  }

  // ---------------------------------------------------------------- lemmas about feeding

  lemma FeedNothing(limits: Limits, st: State)
    ensures Feed(limits, st, "") == st
  {
  }

  lemma {:induction false} FeedAppend(limits: Limits, st: State, a: string, b: string)
    ensures Feed(limits, st, a + b) == Feed(limits, Feed(limits, st, a), b)
    decreases |a|
  {
    if a == "" {
      assert a + b == b;
    } else {
      assert (a + b)[0] == a[0] && (a + b)[1..] == a[1..] + b;
      FeedAppend(limits, Step(limits, st, a[0]), a[1..], b);
    }
  }

  lemma {:induction false} FeedError(limits: Limits, st: State, bytes: string)
    requires st.phase == Error
    ensures Feed(limits, st, bytes) == st
    decreases |bytes|
  {
    if bytes != "" {
      FeedError(limits, st, bytes[1..]);
    }
  }

  /** Nothing but the end of the call may follow a complete body. */
  lemma FeedComplete(limits: Limits, st: State, bytes: string)
    requires st.phase == Complete
    ensures bytes != "" ==> Feed(limits, st, bytes) == st.(phase := Error)
  {
    if bytes != "" {
      FeedError(limits, st.(phase := Error), bytes[1..]);
    }
  }

  lemma {:induction false} FeedData(limits: Limits, st: State, bytes: string)
    requires st.phase == Data && |bytes| <= st.remaining && st.remaining > 0
    ensures Feed(limits, st, bytes) ==
            st.(remaining := st.remaining - |bytes|,
                phase := if |bytes| == st.remaining then DataCr else Data)
    decreases |bytes|
  {
    if bytes != "" && |bytes| < st.remaining {
      FeedData(limits, st.(remaining := st.remaining - 1), bytes[1..]);
    } else if bytes != "" && st.remaining > 1 {
      FeedData(limits, st.(remaining := st.remaining - 1), bytes[1..]);
    } else if bytes != "" {
      assert bytes[1..] == "";
    }
  }

  lemma {:induction false} FeedConsistent(limits: Limits, st: State, bytes: string)
    requires Consistent(limits, st)
    ensures Consistent(limits, Feed(limits, st, bytes))
    decreases |bytes|
  {
    if bytes != "" {
      FeedConsistent(limits, Step(limits, st, bytes[0]), bytes[1..]);
    }
  }

  /** Splitting the input at any place changes neither the state nor the answer, except that a
  finished decoder refuses further octets without leaving its final state. */
  lemma FragmentationIndependence(limits: Limits, st: State, a: string, b: string)
    requires st.phase != Complete
    ensures var (st1, _) := Called(limits, st, a);
            var (st2, answer) := Called(limits, st1, b);
            var (whole, wholeAnswer) := Called(limits, st, a + b);
            && answer == wholeAnswer
            && (st2 == whole <==> !(st1.phase == Complete && b != ""))
  {
    var st1 := Feed(limits, st, a);
    FeedAppend(limits, st, a, b);
    if st1.phase == Complete {
      FeedComplete(limits, st1, b);
      assert a + "" == a;
    }
  }

  // ---------------------------------------------------------------- octet accounting

  /** How many octets of `bytes` are chunk data. */
  function DataOctets(limits: Limits, st: State, bytes: string): nat
    decreases |bytes|
  {
    if bytes == "" then 0
    else (if st.phase == Data then 1 else 0) + DataOctets(limits, Step(limits, st, bytes[0]), bytes[1..])
  }

  /** The announced size minus what is outstanding is exactly the data seen. */
  lemma {:induction false} DecodedCountsData(limits: Limits, st: State, bytes: string)
    requires Consistent(limits, st)
    ensures var st' := Feed(limits, st, bytes);
            && st'.decoded - st'.remaining == st.decoded - st.remaining + DataOctets(limits, st, bytes)
            && st'.decoded <= limits.maxBody
    decreases |bytes|
  {
    if bytes != "" {
      DecodedCountsData(limits, Step(limits, st, bytes[0]), bytes[1..]);
    }
  }

  // ---------------------------------------------------------------- the class

  class ChunkedStreamDecoder {
    const maxDecodedBodySize: nat
    const maxLineSize: nat
    var decodedBodyBytes: nat
    var chunkRemaining: nat
    var line: string
    var lineSawCr: bool
    var state: Phase

    ghost function Bounds(): Limits { Limits(maxDecodedBodySize, maxLineSize) }

    ghost function Abs(): State
      reads this
    {
      State(state, line, lineSawCr, chunkRemaining, decodedBodyBytes)
    }

    ghost predicate Valid()
      reads this
    {
      Consistent(Bounds(), Abs()) && maxDecodedBodySize <= SIZE_MAX
    }

    constructor (maxDecodedBodySize: nat, maxLineSize: nat)
      requires maxDecodedBodySize <= SIZE_MAX
      ensures Valid() && Abs() == INITIAL
      ensures Bounds() == Limits(maxDecodedBodySize, maxLineSize)
    {
      this.maxDecodedBodySize, this.maxLineSize := maxDecodedBodySize, maxLineSize;
      decodedBodyBytes, chunkRemaining, line, lineSawCr, state := 0, 0, "", false, SizeLine;
    }

    method GetStatus() returns (status: Status)
      ensures status == StatusOf(state)
    {
      return if state == Complete then Done else if state == Error then Failed else NeedMoreData;
    }

    /** The bulk loop does to the state what the octet machine does, octet by octet. */
    method Consume(bytes: string) returns (status: Status)
      requires Valid()
      modifies this
      ensures Valid()
      ensures (Abs(), status) == Called(Bounds(), old(Abs()), bytes)
    {
      if state == Complete {
        return if bytes == "" then Done else Failed;
      }
      if state == Error {
        FeedError(Bounds(), Abs(), bytes);
        return Failed;
      }
      var position := 0;
      ghost var start := Abs();
      hide FinishLine, Step;
      while position < |bytes| && state != Complete && state != Error
        invariant position <= |bytes|
        invariant Valid()
        invariant Feed(Bounds(), start, bytes) == Feed(Bounds(), Abs(), bytes[position..])
        decreases |bytes| - position
      {
        ghost var rest := bytes[position..];
        if state == Data {
          var count := if chunkRemaining < |bytes| - position then chunkRemaining else |bytes| - position;
          FeedData(Bounds(), Abs(), rest[..count]);
          assert rest == rest[..count] + rest[count..];
          FeedAppend(Bounds(), Abs(), rest[..count], rest[count..]);
          assert rest[count..] == bytes[position + count..];
          position := position + count;
          chunkRemaining := chunkRemaining - count;
          if chunkRemaining == 0 {
            state := DataCr;
          }
          continue;
        }
        var character := bytes[position];
        position := position + 1;
        assert rest[0] == character && rest[1..] == bytes[position..];
        ConsumeCharacter(character);
      }
      if state == Error {
        FeedError(Bounds(), Abs(), bytes[position..]);
      }
      if state == Complete && position != |bytes| {
        FeedComplete(Bounds(), Abs(), bytes[position..]);
        state := Error;
      }
      status := GetStatus();
    }

    /** The body of the loop outside chunk data. */
    method ConsumeCharacter(character: char)
      requires Valid() && state in {SizeLine, DataCr, DataLf, TrailerLine}
      modifies this
      ensures Valid() && Abs() == Step(Bounds(), old(Abs()), character)
    {
      if state == DataCr {
        state := if character != '\r' then Error else DataLf;
      } else if state == DataLf {
        state := if character != '\n' then Error else SizeLine;
      } else {
        var accepted := AppendLineCharacter(character);
        if !accepted {
          state := Error;
        }
      }
    }

    method AppendLineCharacter(character: char) returns (accepted: bool)
      requires Valid() && (state == SizeLine || state == TrailerLine)
      modifies this
      ensures var st' := Step(Bounds(), old(Abs()), character);
              Abs().(phase := if accepted then state else Error) == st'
      ensures Consistent(Bounds(), Abs().(phase := if accepted then state else Error))
    {
      if lineSawCr {
        lineSawCr := false;
        if character != '\n' {
          return false;
        }
        if state == SizeLine {
          accepted := FinishSizeLine();
        } else {
          accepted := FinishTrailerLine();
        }
        line := "";
        return;
      }
      if character == '\r' {
        lineSawCr := true;
        return true;
      }
      if character == '\n' || |line| >= maxLineSize {
        return false;
      }
      line := line + [character];
      return true;
    }

    method FinishSizeLine() returns (accepted: bool)
      requires Valid() && state == SizeLine && !lineSawCr
      modifies this`state, this`decodedBodyBytes, this`chunkRemaining
      ensures var st' := FinishLine(Bounds(), old(Abs()), line);
              Abs().(line := "", phase := if accepted then state else Error) == st'
    {
      var semicolon := Find(line, ";", 0);
      var number := line[..if semicolon.None? then |line| else semicolon.value];
      assert number == SizeText(line);
      var parsed := ParseSize(16, number);
      if parsed.None? || parsed.value > maxDecodedBodySize - decodedBodyBytes {
        return false;
      }
      if parsed.value == 0 {
        state := TrailerLine;
        return true;
      }
      decodedBodyBytes := decodedBodyBytes + parsed.value;
      chunkRemaining := parsed.value;
      state := Data;
      return true;
    }

    method FinishTrailerLine() returns (accepted: bool)
      requires Valid() && state == TrailerLine && !lineSawCr
      modifies this`state
      ensures var st' := FinishLine(Bounds(), old(Abs()), line);
              Abs().(line := "", phase := if accepted then state else Error) == st'
    {
      if line == "" {
        state := Complete;
        return true;
      }
      var colon := Find(line, ":", 0);
      if colon.None? || colon.value == 0 || !AllToken(line[..colon.value]) {
        return false;
      }
      return !ForbiddenTrailer(line[..colon.value]);
    }
  }
}
