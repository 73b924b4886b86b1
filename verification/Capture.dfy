/** The bounded output capture of domain/services/isolate.go and executor.go. */
module Capture {

  const MAX_ISOLATE_OUTPUT_BYTES: nat := 16 * 1024 * 1024
  const MAX_TEST_CASE_OUTPUT_BYTES: nat := 10000
  const TRUNCATION_MARKER := "\n...[output truncated]"

  // A Go string is a sequence of bytes; one char stands for one byte here.

  function First(n: nat, s: string): string {
    if |s| <= n then s else s[..n]
  }

  class LimitedBuffer {
    const max: nat
    var buf: string
    var truncated: bool

    ghost predicate Valid() reads this { |buf| <= max }

    constructor (max: nat)
      ensures this.max == max && Valid() && Contents() == Captured("", false)
    {
      this.max := max;
      buf := "";
      truncated := false;
    }

    ghost function Contents(): Captured reads this { Captured(buf, truncated) }

    method Write(p: string) returns (n: nat)
      requires Valid()
      modifies this
      ensures Valid() && n == |p|
      ensures Contents() == old(Contents()).Then(max, p)
    {
      var remaining := max - |buf|;
      if remaining > 0 {
        if |p| <= remaining {
          buf := buf + p;
        } else {
          buf := buf + p[..remaining];
          truncated := true;
        }
      } else if |p| > 0 {
        truncated := true;
      }
      assert buf == First(max, old(buf) + p);
      return |p|;
    }
  }

  datatype Captured = Captured(kept: string, truncated: bool) {

    /** What a buffer with limit max holds after one more write. */
    function Then(max: nat, p: string): Captured {
      Captured(First(max, kept + p), truncated || |kept| + |p| > max)
    }
  }

  function AfterWrites(max: nat, chunks: seq<string>): Captured {
    if chunks == [] then Captured("", false)
    else AfterWrites(max, chunks[..|chunks| - 1]).Then(max, chunks[|chunks| - 1])
  }

  function Concat(chunks: seq<string>): string {
    if chunks == [] then "" else Concat(chunks[..|chunks| - 1]) + chunks[|chunks| - 1]
  }

  /** However the process splits its output into writes, the buffer holds the first max bytes of the stream. */
  lemma {:induction false} CaptureRefinesStream(max: nat, chunks: seq<string>)
    ensures var (c, raw) := (AfterWrites(max, chunks), Concat(chunks));
            && c.kept <= raw && |c.kept| == (if |raw| <= max then |raw| else max)
            && (c.truncated <==> |raw| > max)
  {
    if chunks != [] {
      CaptureRefinesStream(max, chunks[..|chunks| - 1]);
    }
  }

  /** The stdout string that IsolateInstance.run returns for a process that wrote `raw`. */
  function Kept(raw: string): string {
    First(MAX_ISOLATE_OUTPUT_BYTES, raw)
  }

  /** All of it up to 16 MiB, and the first 16 MiB of anything longer. */
  predicate Captures(kept: string, raw: string) {
    kept <= raw && |kept| == if |raw| <= 16 * 1024 * 1024 then |raw| else 16 * 1024 * 1024
  }

  /** What run returns is what its buffer holds in the end, however the output came. */
  lemma RunReturnsTheCapture(chunks: seq<string>)
    ensures Kept(Concat(chunks)) == AfterWrites(16 * 1024 * 1024, chunks).kept
    ensures Captures(Kept(Concat(chunks)), Concat(chunks))
  {
    CaptureRefinesStream(16 * 1024 * 1024, chunks);
  }

  function TruncateOutput(s: string): string {
    if |s| <= MAX_TEST_CASE_OUTPUT_BYTES then s
    else s[..MAX_TEST_CASE_OUTPUT_BYTES] + TRUNCATION_MARKER
  }

  /** All of it up to 10000 bytes; otherwise its first 10000 and a note. */
  predicate Displays(shown: string, raw: string) {
    if |raw| <= 10000 then shown == raw
    else |shown| > 10000 && shown[..10000] <= raw && shown[10000..] == "\n...[output truncated]"
  }

  /** The output kept in a grade result does not reveal that the capture was bounded too. */
  lemma RetainedOutputIsThatOfTheStream(chunks: seq<string>)
    ensures Displays(TruncateOutput(Kept(Concat(chunks))), Concat(chunks))
  {
    var raw := Concat(chunks);
    if |raw| > 10000 {
      assert Kept(raw)[..10000] == raw[..10000];
    }
  }
}
