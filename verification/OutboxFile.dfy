/**
The text of `outbox.jsonl`: one encoded entry a line. The encoding of an entry is a parameter; of JSON
only this is used: it can be read back, has no newline, and no strict prefix of it can be read.
*/
module OutboxFile {
  import opened Options

  ghost predicate Codec<T(!new)>(enc: T -> string, dec: string -> Option<T>) {
    && (forall x :: dec(enc(x)) == Some(x))
    && (forall x :: '\n' !in enc(x) && !Blank(enc(x)))
    && (forall x, n :: 0 <= n < |enc(x)| ==> dec(enc(x)[..n]) == None)
  }

  predicate Blank(line: string) {
    forall c :: c in line ==> c == ' ' || c == '\t' || c == '\r'
  }

  // What `persist` writes: the lines joined by newlines, and a last newline unless there is none.
  function Joined<T>(enc: T -> string, xs: seq<T>): string {
    if xs == [] then "" else if |xs| == 1 then enc(xs[0]) else enc(xs[0]) + "\n" + Joined(enc, xs[1..])
  }

  function Body<T>(enc: T -> string, xs: seq<T>): string {
    var body := Joined(enc, xs);
    if body == "" then "" else body + "\n"
  }

  function NewlineAt(s: string): (i: nat)
    ensures i <= |s|
    ensures i < |s| ==> s[i] == '\n'
    ensures forall j :: 0 <= j < i ==> s[j] != '\n'
  {
    if s == "" || s[0] == '\n' then 0 else 1 + NewlineAt(s[1..])
  }

  function Split(s: string): seq<string> {
    var i := NewlineAt(s);
    if i == |s| then [s] else [s[..i]] + Split(s[i + 1..])
  }

  function Read<T>(dec: string -> Option<T>, line: string): seq<T> {
    if Blank(line) then [] else match dec(line) { case None => [] case Some(x) => [x] }
  }

  function ReadLines<T>(dec: string -> Option<T>, lines: seq<string>): seq<T> {
    if lines == [] then [] else Read(dec, lines[0]) + ReadLines(dec, lines[1..])
  }

  function ReadFile<T>(dec: string -> Option<T>, raw: string): seq<T> {
    ReadLines(dec, Split(raw))
  }

  lemma {:induction false} ReadLinesOfAppended<T>(dec: string -> Option<T>, lines: seq<string>, line: string)
    ensures ReadLines(dec, lines + [line]) == ReadLines(dec, lines) + Read(dec, line)
  {
    if lines != [] {
      assert (lines + [line])[1..] == lines[1..] + [line];
      ReadLinesOfAppended(dec, lines[1..], line);
    } else {
      assert ([] + [line])[1..] == [];
      assert Read(dec, line) + [] == Read(dec, line);
    }
  }

  method ReadAll<T>(dec: string -> Option<T>, raw: string) returns (xs: seq<T>)
    ensures xs == ReadFile(dec, raw)
  {
    xs := [];
    var lines := Split(raw);
    for i := 0 to |lines|
      invariant xs == ReadLines(dec, lines[..i])
    {
      ReadLinesOfAppended(dec, lines[..i], lines[i]);
      assert lines[..i + 1] == lines[..i] + [lines[i]];
      if !Blank(lines[i]) {
        match dec(lines[i]) {
          case None =>
          case Some(x) => xs := xs + [x];
        }
      }
    }
    assert lines[..|lines|] == lines;
  }

  lemma SplitLine(line: string, rest: string)
    requires '\n' !in line
    ensures Split(line + "\n" + rest) == [line] + Split(rest)
    ensures Split(line) == [line]
  {
    var s := line + "\n" + rest;
    assert s[|line|] == '\n';
    assert forall j :: 0 <= j < |line| ==> s[j] == line[j];
    assert NewlineAt(s) == |line|;
    assert s[..|line|] == line && s[|line| + 1..] == rest;
  }

  lemma ReadLine<T>(dec: string -> Option<T>, line: string, rest: string)
    requires '\n' !in line
    ensures ReadFile(dec, line + "\n" + rest) == Read(dec, line) + ReadFile(dec, rest)
    ensures ReadFile(dec, line) == Read(dec, line)
  {
    SplitLine(line, rest);
    assert ([line] + Split(rest))[1..] == Split(rest);
    ReadLinesOfAppended(dec, [], line);
    assert [] + [line] == [line];
  }

  lemma {:induction false} BodyOfCons<T(!new)>(enc: T -> string, dec: string -> Option<T>, xs: seq<T>)
    requires Codec(enc, dec)
    ensures xs != [] ==> Body(enc, xs) == enc(xs[0]) + "\n" + Body(enc, xs[1..])
    ensures xs != [] ==> Joined(enc, xs) != ""
  {
    if xs != [] {
      assert !Blank(enc(xs[0]));
      BodyOfCons(enc, dec, xs[1..]);
    }
  }

  lemma ConsApart(first: string, lines: seq<string>, rest: seq<string>)
    ensures ([first] + lines) + rest == [first] + (lines + rest)
  {
  }

  function Lines<T>(enc: T -> string, xs: seq<T>): seq<string> {
    if xs == [] then [] else [enc(xs[0])] + Lines(enc, xs[1..])
  }

  // The file has one line for each entry, in order, and each line ends with a newline.
  lemma {:induction false} BodyIsLines<T(!new)>(enc: T -> string, dec: string -> Option<T>, xs: seq<T>)
    requires Codec(enc, dec)
    ensures Split(Body(enc, xs)) == Lines(enc, xs) + [""]
  {
    if xs == [] {
      assert Split("") == [""];
    } else {
      BodyOfCons(enc, dec, xs);
      ReadsBack(enc, dec, xs[0]);
      SplitLine(enc(xs[0]), Body(enc, xs[1..]));
      BodyIsLines(enc, dec, xs[1..]);
      ConsApart(enc(xs[0]), Lines(enc, xs[1..]), [""]);
    }
  }

  // Reading back what was written gives the same entries in the same order.
  lemma {:induction false} RoundTrip<T(!new)>(enc: T -> string, dec: string -> Option<T>, xs: seq<T>)
    requires Codec(enc, dec)
    ensures ReadFile(dec, Body(enc, xs)) == xs
  {
    if xs == [] {
      assert Split("") == [""];
    } else {
      BodyOfCons(enc, dec, xs);
      ReadLine(dec, enc(xs[0]), Body(enc, xs[1..]));
      RoundTrip(enc, dec, xs[1..]);
    }
  }

  // A file cut anywhere reads as a prefix of the entries: exactly those whose text is complete.
  lemma {:induction false} TruncatedReadsPrefix<T(!new)>(enc: T -> string, dec: string -> Option<T>, xs: seq<T>, n: nat)
    requires Codec(enc, dec) && n <= |Body(enc, xs)|
    ensures ReadFile(dec, Body(enc, xs)[..n]) <= xs
    ensures forall k: nat :: k <= |xs| && |Body(enc, xs[..k])| <= n ==> k <= |ReadFile(dec, Body(enc, xs)[..n])|
    decreases xs
  {
    var body := Body(enc, xs);
    if xs == [] {
      assert Split("") == [""];
    } else {
      BodyOfCons(enc, dec, xs);
      var first := enc(xs[0]);
      if n <= |first| {
        assert body[..n] == first[..n];
        ReadLine(dec, first[..n], "");
        if n == |first| { assert first[..n] == first; }
      } else {
        var m := n - |first| - 1;
        assert body[..n] == first + "\n" + Body(enc, xs[1..])[..m];
        ReadLine(dec, first, Body(enc, xs[1..])[..m]);
        TruncatedReadsPrefix(enc, dec, xs[1..], m);
      }
      forall k: nat | k <= |xs| && |Body(enc, xs[..k])| <= n ensures k <= |ReadFile(dec, body[..n])| {
        if k > 0 {
          FirstComesFirst(enc, dec, xs, k);
        }
      }
    }
  }

  lemma FirstComesFirst<T(!new)>(enc: T -> string, dec: string -> Option<T>, xs: seq<T>, k: nat)
    requires Codec(enc, dec) && 0 < k <= |xs|
    ensures |Body(enc, xs[..k])| == |enc(xs[0])| + 1 + |Body(enc, xs[1..][..k - 1])|
  {
    BodyOfCons(enc, dec, xs[..k]);
    assert xs[..k][1..] == xs[1..][..k - 1];
  }

  lemma ReadsBack<T(!new)>(enc: T -> string, dec: string -> Option<T>, x: T)
    requires Codec(enc, dec)
    ensures '\n' !in enc(x) && Read(dec, enc(x)) == [x]
  {
  }

  lemma FirstLineApart(first: string, body: string, rest: string)
    ensures (first + "\n" + body) + rest == first + "\n" + (body + rest)
  {
  }

  lemma FirstOneApart<T>(xs: seq<T>, zs: seq<T>)
    requires xs != []
    ensures [xs[0]] + (xs[1..] + zs) == xs + zs
  {
  }

  lemma ReadFirst<T>(dec: string -> Option<T>, first: string, x: T, rest: string)
    requires '\n' !in first && Read(dec, first) == [x]
    ensures ReadFile(dec, first + "\n" + rest) == [x] + ReadFile(dec, rest)
  {
    ReadLine(dec, first, rest);
  }

  // Whatever follows whole lines is read after them.
  lemma {:induction false} ReadAfter<T(!new)>(enc: T -> string, dec: string -> Option<T>, xs: seq<T>, rest: string)
    requires Codec(enc, dec)
    ensures ReadFile(dec, Body(enc, xs) + rest) == xs + ReadFile(dec, rest)
    decreases xs
  {
    var zs := ReadFile(dec, rest);
    if xs == [] {
      assert Body(enc, xs) + rest == rest && xs + zs == zs;
    } else {
      var first, tail := enc(xs[0]), Body(enc, xs[1..]);
      assert Body(enc, xs) == first + "\n" + tail by { BodyOfCons(enc, dec, xs); }
      assert '\n' !in first && Read(dec, first) == [xs[0]] by { ReadsBack(enc, dec, xs[0]); }
      calc {
        ReadFile(dec, Body(enc, xs) + rest);
        { FirstLineApart(first, tail, rest); }
        ReadFile(dec, first + "\n" + (tail + rest));
        { ReadFirst(dec, first, xs[0], tail + rest); }
        [xs[0]] + ReadFile(dec, tail + rest);
        { ReadAfter(enc, dec, xs[1..], rest); }
        [xs[0]] + (xs[1..] + zs);
        { FirstOneApart(xs, zs); }
        xs + zs;
      }
    }
  }

  // A line that cannot be read costs only itself.
  lemma BrokenLineIsSkipped<T(!new)>(enc: T -> string, dec: string -> Option<T>, xs: seq<T>, junk: string, ys: seq<T>)
    requires Codec(enc, dec) && '\n' !in junk && dec(junk).None?
    ensures ReadFile(dec, Body(enc, xs) + (junk + "\n" + Body(enc, ys))) == xs + ys
  {
    ReadAfter(enc, dec, xs, junk + "\n" + Body(enc, ys));
    ReadLine(dec, junk, Body(enc, ys));
    RoundTrip(enc, dec, ys);
    assert Read(dec, junk) == [] && [] + ys == ys;
  }

  function FlagText(b: bool): string {
    if b then "t." else "f."
  }

  function FlagOf(s: string): Option<bool> {
    if s == "t." then Some(true) else if s == "f." then Some(false) else None
  }

  // What is asked of the encoding can be had.
  lemma CodecsExist()
    ensures Codec(FlagText, FlagOf)
  {
    forall x: bool ensures '\n' !in FlagText(x) && !Blank(FlagText(x)) {
      assert FlagText(x)[1] == '.' && FlagText(x)[1] in FlagText(x);
      assert FlagText(x) == [FlagText(x)[0], '.'];
    }
  }
}
