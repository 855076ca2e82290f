/**
  `components/Recorder.tsx`: the `m:ss` duration display and the recording
  state (flag, elapsed seconds, timer handle, buffered audio chunks). The
  microphone, the `MediaRecorder` and the interval timer are the environment:
  whether the microphone was granted is a parameter, and the timer's callback
  and the recorder's events are methods the environment calls.
 */
module Recorder {
  import opened Wrappers

  predicate IsDigit(c: char)
  {
    '0' <= c <= '9'
  }

  predicate AllDigits(s: string)
  {
    forall i :: 0 <= i < |s| ==> IsDigit(s[i])
  }

  function DigitChar(d: nat): (c: char)
    requires d < 10
    ensures IsDigit(c) && c as int - '0' as int == d
  {
    ('0' as int + d) as char
  }

  /** Decimal value of a string of digits, most significant first. */
  function DigitsValue(s: string): nat
    requires AllDigits(s)
  {
    if s == [] then 0
    else DigitsValue(s[..|s| - 1]) * 10 + (s[|s| - 1] as int - '0' as int)
  }

  /** `n.toString()` for a non-negative integer: its decimal digits, without leading zeros. */
  function NumberToString(n: nat): (s: string)
    ensures |s| >= 1 && AllDigits(s)
    ensures |s| > 1 ==> s[0] != '0'
    ensures n < 10 ==> |s| == 1
    ensures 10 <= n < 100 ==> |s| == 2
  {
    if n < 10 then [DigitChar(n)] else NumberToString(n / 10) + [DigitChar(n % 10)]
  }

  /** Reading the digits back gives the number. */
  lemma {:induction false} NumberToStringRoundTrip(n: nat)
    ensures DigitsValue(NumberToString(n)) == n
  {
    var s := NumberToString(n);
    if n >= 10 {
      NumberToStringRoundTrip(n / 10);
      assert s[..|s| - 1] == NumberToString(n / 10);
    }
  }

  /** `s.padStart(2, '0')`. */
  function PadStart2(s: string): (r: string)
    ensures |s| >= 2 ==> r == s
    ensures |s| == 1 ==> r == "0" + s
    decreases 2 - |s|
  {
    if |s| >= 2 then s else PadStart2("0" + s)
  }

  /**
    `formatDuration`: minutes, a colon, and the seconds as exactly two digits.
    The minutes field reads back as `seconds / 60` and the seconds field as
    `seconds % 60`.
   */
  function FormatDuration(seconds: nat): (r: string)
    ensures |r| >= 4 && r[|r| - 3] == ':'
    ensures AllDigits(r[..|r| - 3]) && AllDigits(r[|r| - 2..])
    ensures DigitsValue(r[..|r| - 3]) == seconds / 60
    ensures DigitsValue(r[|r| - 2..]) == seconds % 60 < 60
  {
    var mins := NumberToString(seconds / 60);
    var secs := PadStart2(NumberToString(seconds % 60));
    NumberToStringRoundTrip(seconds / 60);
    NumberToStringRoundTrip(seconds % 60);
    var r := mins + ":" + secs;
    assert r[..|r| - 3] == mins;
    assert r[|r| - 2..] == secs;
    assert DigitsValue(secs) == seconds % 60 by {
      var d := NumberToString(seconds % 60);
      if |d| == 1 {
        assert secs == "0" + d;
        assert secs[..1] == "0";
      }
    }
    r
  }

  /** Position of the first occurrence of `c`. */
  function Find(s: string, c: char): (r: Option<nat>)
    ensures r.Some? ==> r.value < |s| && s[r.value] == c && c !in s[..r.value]
    ensures r.None? ==> c !in s
  {
    if s == [] then None
    else if s[0] == c then Some(0)
    else match Find(s[1..], c)
      case None => None
      case Some(i) => assert s[..i + 1] == [s[0]] + s[1..][..i]; Some(i + 1)
  }

  /** Reads an `m:ss` display back as a number of seconds. */
  function ParseDuration(s: string): Option<nat>
  {
    match Find(s, ':')
    case None => None
    case Some(p) =>
      var mins, secs := s[..p], s[p + 1..];
      if mins != [] && secs != [] && AllDigits(mins) && AllDigits(secs)
      then Some(DigitsValue(mins) * 60 + DigitsValue(secs))
      else None
  }

  /** The display reads back as the number of seconds it was made from. */
  lemma FormatDurationRoundTrip(seconds: nat)
    ensures ParseDuration(FormatDuration(seconds)) == Some(seconds)
  {
    var r := FormatDuration(seconds);
    var p := |r| - 3;
    assert ':' !in r[..p];
    assert Find(r, ':') == Some(p) by {
      var f := Find(r, ':');
      assert r[p] == ':';
      assert f.Some?;
    }
    assert r[p + 1..] == r[|r| - 2..];
  }

  /** One recorded chunk of audio; its size is its length. */
  type Chunk = seq<bv8>

  class RecorderState {
    var isRecording: bool
    var duration: nat
    /** `mediaRecorderRef.current != null` */
    var hasRecorder: bool
    /** `timerRef.current != null` */
    var timerActive: bool
    var chunks: seq<Chunk>

    /** The timer runs exactly while recording, and recording needs a recorder. */
    ghost predicate Valid()
      reads this
    {
      timerActive == isRecording && (isRecording ==> hasRecorder)
    }

    constructor ()
      ensures Valid()
      ensures !isRecording && duration == 0 && !hasRecorder && !timerActive && chunks == []
    {
      isRecording, duration, hasRecorder, timerActive, chunks := false, 0, false, false, [];
    }

    /**
      `startRecording`: when the microphone is granted, a fresh recorder with an
      empty chunk buffer, the flag set, the counter at zero and the timer running;
      otherwise nothing changes.
     */
    method StartRecording(microphoneGranted: bool)
      requires Valid()
      modifies this
      ensures Valid()
      ensures microphoneGranted ==> isRecording && duration == 0 && hasRecorder && timerActive && chunks == []
      ensures !microphoneGranted ==> unchanged(this)
    {
      if microphoneGranted {
        hasRecorder := true;
        chunks := [];
        isRecording := true;
        duration := 0;
        timerActive := true;
      }
    }

    /** The recorder's `ondataavailable`: a non-empty chunk is buffered. */
    method DataAvailable(data: Chunk)
      modifies this`chunks
      ensures chunks == if |data| > 0 then old(chunks) + [data] else old(chunks)
    {
      if |data| > 0 {
        chunks := chunks + [data];
      }
    }

    /** The interval timer's callback, called once a second while the timer runs. */
    method Tick()
      requires timerActive
      modifies this`duration
      ensures duration == old(duration) + 1
    {
      duration := duration + 1;
    }

    /**
      `stopRecording`: only with a recorder and while recording; then the flag is
      cleared and the timer handle released. The counter and the buffer are kept.
     */
    method StopRecording()
      requires Valid()
      modifies this
      ensures Valid()
      ensures old(hasRecorder && isRecording) ==>
        !isRecording && !timerActive && hasRecorder && duration == old(duration) && chunks == old(chunks)
      ensures !old(hasRecorder && isRecording) ==> unchanged(this)
    {
      if hasRecorder && isRecording {
        isRecording := false;
        if timerActive {
          timerActive := false;
        }
      }
    }

    /** The recorder's `onstop`: the buffered chunks, in order, form the blob handed on. */
    method Stopped() returns (blob: seq<Chunk>)
      ensures blob == chunks
    {
      blob := chunks;
    }
  }
}
