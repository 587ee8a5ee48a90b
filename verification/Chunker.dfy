/** Recursive character chunker (app/ingest/chunker.py). */
module Chunker {
  import opened Numbers
  import opened Sequences
  import opened Text

  const DEFAULT_SEPARATORS: seq<string> := ["\n\n", "\n", ". ", " ", ""]

  // ---------------------------------------------------------------- specification

  /** `[text[i:i+size] for i in range(i, len(text), step)]`. */
  function Windows(text: string, size: nat, step: nat, i: nat): seq<string>
    requires step >= 1
    decreases |text| - i
  {
    if i >= |text| then [] else [text[i..Min(i + size, |text|)]] + Windows(text, size, step, i + step)
  }

  /** `prev[-overlap:] if len(prev) > overlap else prev`. */
  function Tail(prev: string, overlap: nat): string {
    if |prev| > overlap then prev[|prev| - overlap..] else prev
  }

  function StitchedPiece(out: seq<string>, k: nat, overlap: nat, sep: string): string
    requires k < |out|
  {
    if k == 0 then out[0] else Tail(out[k - 1], overlap) + sep + out[k]
  }

  function Stitch(out: seq<string>, overlap: int, sep: string): seq<string> {
    if overlap > 0 && |out| > 1
    then seq(|out|, k requires 0 <= k < |out| => StitchedPiece(out, k, overlap, sep))
    else out
  }

  function SplitText(text: string, size: nat, overlap: int, seps: seq<string>): seq<string>
    decreases |seps|, 0
  {
    if |text| <= size then [text]
    else if seps == [] || seps[0] == "" then Windows(text, size, Max(1, size - overlap), 0)
    else Stitch(Pack(Split(text, seps[0]), [], "", size, overlap, seps[0], seps[1..]), overlap, seps[0])
  }

  /** The packing loop: `out` is emitted, `buf` is the open buffer, `parts` remain. */
  function Pack(parts: seq<string>, out: seq<string>, buf: string,
                size: nat, overlap: int, sep: string, rest: seq<string>): seq<string>
    decreases |rest|, 1 + |parts|
  {
    if parts == [] then out + Flush(buf)
    else
      var part := parts[0];
      var candidate := Candidate(buf, sep, part);
      if |candidate| <= size then Pack(parts[1..], out, candidate, size, overlap, sep, rest)
      else if |part| > size then
        Pack(parts[1..], out + Flush(buf) + SplitText(part, size, overlap, rest), "", size, overlap, sep, rest)
      else Pack(parts[1..], out + Flush(buf), part, size, overlap, sep, rest)
  }

  function Candidate(buf: string, sep: string, part: string): string {
    if buf != "" then buf + sep + part else part
  }

  function Flush(buf: string): seq<string> {
    if buf != "" then [buf] else []
  }

  // ---------------------------------------------------------------- the program

  method SlidingWindows(text: string, size: nat, overlap: int) returns (out: seq<string>)
    ensures out == Windows(text, size, Max(1, size - overlap), 0)
  {
    out := [];
    var step := Max(1, size - overlap);
    var i := 0;
    while i < |text|
      invariant out + Windows(text, size, step, i) == Windows(text, size, step, 0)
      decreases |text| - i
    {
      out := out + [text[i..Min(i + size, |text|)]];
      i := i + step;
    }
  }

  lemma StitchAt(out: seq<string>, overlap: int, sep: string, i: nat)
    requires overlap > 0 && 1 <= i < |out|
    ensures |Stitch(out, overlap, sep)| == |out|
    ensures Stitch(out, overlap, sep)[i] == Tail(out[i - 1], overlap) + sep + out[i]
  {
  }

  lemma StitchFirst(out: seq<string>, overlap: int, sep: string)
    requires overlap > 0 && |out| > 1
    ensures |Stitch(out, overlap, sep)| == |out| && Stitch(out, overlap, sep)[0] == out[0]
  {
  }

  method StitchOverlap(out: seq<string>, overlap: int, sep: string) returns (stitched: seq<string>)
    ensures stitched == Stitch(out, overlap, sep)
  {
    if overlap <= 0 || |out| <= 1 { return out; }
    ghost var all := Stitch(out, overlap, sep);
    StitchFirst(out, overlap, sep);
    stitched := [out[0]];
    assert all[..1] == [all[0]];
    for i := 1 to |out|
      invariant |all| == |out| && stitched == all[..i]
    {
      var piece := Tail(out[i - 1], overlap) + sep + out[i];
      StitchAt(out, overlap, sep, i);
      TakeOneMore(all, i);
      stitched := stitched + [piece];
    }
    assert all[..|all|] == all;
  }

  method RecursiveSplit(text: string, size: nat, overlap: int, seps: seq<string>) returns (out: seq<string>)
    ensures out == SplitText(text, size, overlap, seps)
    ensures |text| <= size ==> out == [text]
    decreases |seps|
  {
    if |text| <= size { return [text]; }
    var sep, rest := "", [];
    if seps != [] { sep, rest := seps[0], seps[1..]; }
    if sep == "" {
      out := SlidingWindows(text, size, overlap);
      return;
    }

    var parts := Split(text, sep);
    out := [];
    var buf := "";
    for i := 0 to |parts|
      invariant Pack(parts[i..], out, buf, size, overlap, sep, rest) == Pack(parts, [], "", size, overlap, sep, rest)
    {
      assert parts[i..][1..] == parts[i + 1..];
      var part := parts[i];
      var candidate := Candidate(buf, sep, part);
      if |candidate| <= size {
        buf := candidate;
        continue;
      }
      out := out + Flush(buf);
      if |part| > size {
        var pieces := RecursiveSplit(part, size, overlap, rest);
        out := out + pieces;
        buf := "";
      } else {
        buf := part;
      }
    }
    out := out + Flush(buf);
    out := StitchOverlap(out, overlap, sep);
  }
}
