/** Delimited lists stored in one string, and the trimming around them. */
module Text {

  /** The White_Space characters both languages' trim functions remove. */
  predicate IsSpace(c: char) {
    || '\t' <= c <= '\r'
    || c in {' ', '\U{0085}', '\U{00A0}', '\U{1680}', '\U{2028}', '\U{2029}', '\U{202F}', '\U{205F}', '\U{3000}'}
    || '\U{2000}' <= c <= '\U{200A}'
  }

  function TrimLeft(s: string): string {
    if s != "" && IsSpace(s[0]) then TrimLeft(s[1..]) else s
  }

  function TrimRight(s: string): string {
    if s != "" && IsSpace(s[|s| - 1]) then TrimRight(s[..|s| - 1]) else s
  }

  function Trim(s: string): string {
    TrimRight(TrimLeft(s))
  }

  predicate Contains(s: string, part: string) {
    exists i :: 0 <= i <= |s| && part <= s[i..]
  }

  lemma {:induction false} TrimLeftStarts(s: string)
    ensures TrimLeft(s) != "" ==> !IsSpace(TrimLeft(s)[0])
    ensures forall c :: c in TrimLeft(s) ==> c in s
  {
    if s != "" && IsSpace(s[0]) { TrimLeftStarts(s[1..]); }
  }

  lemma {:induction false} TrimRightEnds(s: string)
    ensures TrimRight(s) <= s
    ensures TrimRight(s) != "" ==> !IsSpace(TrimRight(s)[|TrimRight(s)| - 1])
  {
    if s != "" && IsSpace(s[|s| - 1]) { TrimRightEnds(s[..|s| - 1]); }
  }

  /** Trimming what is already trimmed changes nothing, and adds no characters. */
  lemma TrimTwice(s: string)
    ensures Trim(Trim(s)) == Trim(s)
    ensures forall c :: c in Trim(s) ==> c in s
  {
    TrimLeftStarts(s);
    TrimRightEnds(TrimLeft(s));
  }

  predicate Blank(s: string) {
    forall c :: c in s ==> IsSpace(c)
  }

  lemma {:induction false} TrimLeftCuts(s: string) returns (before: string)
    ensures s == before + TrimLeft(s) && Blank(before)
  {
    before := "";
    if s != "" && IsSpace(s[0]) {
      before := TrimLeftCuts(s[1..]);
      before := [s[0]] + before;
    }
  }

  lemma {:induction false} TrimRightCuts(s: string) returns (after: string)
    ensures s == TrimRight(s) + after && Blank(after)
  {
    after := "";
    if s != "" && IsSpace(s[|s| - 1]) {
      after := TrimRightCuts(s[..|s| - 1]);
      after := after + [s[|s| - 1]];
    }
  }

  /** Trimming cuts off blank ends, and nothing blank is left at either end. */
  lemma TrimCutsBlanks(s: string) returns (before: string, after: string)
    ensures s == before + Trim(s) + after && Blank(before) && Blank(after)
    ensures Trim(s) != "" ==> !IsSpace(Trim(s)[0]) && !IsSpace(Trim(s)[|Trim(s)| - 1])
  {
    before := TrimLeftCuts(s);
    after := TrimRightCuts(TrimLeft(s));
    TrimLeftStarts(s);
    TrimRightEnds(TrimLeft(s));
  }

  /** What arrives in pieces, as a whole. */
  function Concat(chunks: seq<string>): string {
    if chunks == [] then "" else Concat(chunks[..|chunks| - 1]) + chunks[|chunks| - 1]
  }

  /** strings.Split / str::split on a one-character separator: always at least one part. */
  function Split(s: string, sep: char): (parts: seq<string>)
    ensures |parts| >= 1
  {
    if s == "" then [""]
    else
      var rest := Split(s[1..], sep);
      if s[0] == sep then [""] + rest else [[s[0]] + rest[0]] + rest[1..]
  }

  /** strings.Join / slice::join. */
  function Join(parts: seq<string>, glue: string): string {
    if parts == [] then ""
    else if |parts| == 1 then parts[0]
    else parts[0] + glue + Join(parts[1..], glue)
  }

  function NonEmpty(parts: seq<string>): seq<string> {
    if parts == [] then []
    else if parts[|parts| - 1] == "" then NonEmpty(parts[..|parts| - 1])
    else NonEmpty(parts[..|parts| - 1]) + [parts[|parts| - 1]]
  }

  /** What parseTags and parseRestartHistory return for a stored value. */
  function ParseList(csv: string): seq<string> {
    NonEmpty(Split(csv, ','))
  }

  predicate Plain(s: string, sep: char) {
    sep !in s
  }

  lemma {:induction false} SplitPlainPrefix(p: string, s: string, sep: char)
    requires Plain(p, sep)
    ensures Split(p + s, sep) == [p + Split(s, sep)[0]] + Split(s, sep)[1..]
  {
    if p == "" {
      assert p + s == s && p + Split(s, sep)[0] == Split(s, sep)[0];
    } else {
      SplitPlainPrefix(p[1..], s, sep);
      assert (p + s)[1..] == p[1..] + s;
      assert [p[0]] + (p[1..] + Split(s, sep)[0]) == p + Split(s, sep)[0];
    }
  }

  lemma {:induction false} SplitPlain(p: string, sep: char)
    requires Plain(p, sep)
    ensures Split(p, sep) == [p]
  {
    SplitPlainPrefix(p, "", sep);
    assert p + "" == p;
  }

  /** Splitting a joined list gives the list back, with the rest of the glue left in
      front of every part but the first. */
  lemma {:induction false} SplitJoin(parts: seq<string>, sep: char, pad: string)
    requires parts != []
    requires forall p :: p in parts ==> Plain(p, sep)
    requires Plain(pad, sep)
    ensures |Split(Join(parts, [sep] + pad), sep)| == |parts|
    ensures Split(Join(parts, [sep] + pad), sep)[0] == parts[0]
    ensures forall i :: 1 <= i < |parts| ==> Split(Join(parts, [sep] + pad), sep)[i] == pad + parts[i]
  {
    if |parts| == 1 {
      SplitPlain(parts[0], sep);
    } else {
      var rest := Join(parts[1..], [sep] + pad);
      var tail := pad + rest;
      SplitJoin(parts[1..], sep, pad);
      SplitPlainPrefix(pad, rest, sep);
      assert Split([sep] + tail, sep) == [""] + Split(tail, sep) by { assert ([sep] + tail)[1..] == tail; }
      SplitPlainPrefix(parts[0], [sep] + tail, sep);
      assert Join(parts, [sep] + pad) == parts[0] + ([sep] + tail);
      var all := Split(Join(parts, [sep] + pad), sep);
      assert parts[0] + "" == parts[0];
      assert all == [parts[0]] + Split(tail, sep);
      forall i | 1 <= i < |parts| ensures all[i] == pad + parts[i] {
        assert all[i] == Split(tail, sep)[i - 1];
      }
    }
  }

  /** Joining the parts of a split gives the text back, and no part holds the separator. */
  lemma {:induction false} JoinSplit(s: string, sep: char)
    ensures Join(Split(s, sep), [sep]) == s
    ensures forall p :: p in Split(s, sep) ==> Plain(p, sep)
  {
    if s != "" {
      JoinSplit(s[1..], sep);
      var rest, parts := Split(s[1..], sep), Split(s, sep);
      assert s == [s[0]] + s[1..];
      if s[0] == sep {
        assert parts[1..] == rest;
      } else {
        assert Plain(rest[0], sep) by { assert rest[0] in rest; }
        assert parts[1..] == rest[1..];
      }
    }
  }

  /** Each separator ends a part. */
  lemma {:induction false} SplitBoth(a: string, b: string, sep: char)
    ensures Split(a + [sep] + b, sep) == Split(a, sep) + Split(b, sep)
  {
    hide Split;
    if a == "" {
      assert a + [sep] + b == [sep] + b;
      SplitFirst(sep, b, sep);
    } else {
      SplitBoth(a[1..], b, sep);
      assert a == [a[0]] + a[1..] && a + [sep] + b == [a[0]] + (a[1..] + [sep] + b);
      SplitFirst(a[0], a[1..], sep);
      SplitFirst(a[0], a[1..] + [sep] + b, sep);
    }
  }

  lemma SplitFirst(c: char, s: string, sep: char)
    ensures Split("", sep) == [""]
    ensures var rest := Split(s, sep);
            Split([c] + s, sep) == if c == sep then [""] + rest else [[c] + rest[0]] + rest[1..]
  {
    assert ([c] + s)[1..] == s;
  }

  /** Only the empty parts are dropped. */
  lemma {:induction false} NonEmptyDrops(a: seq<string>, b: seq<string>)
    ensures NonEmpty(a + b) == NonEmpty(a) + NonEmpty(b)
    ensures |b| == 1 ==> NonEmpty(b) == if b[0] == "" then [] else b
    ensures |b| == 0 ==> NonEmpty(b) == []
  {
    if b == [] {
      assert a + b == a;
    } else {
      assert (a + b)[..|a + b| - 1] == a + b[..|b| - 1];
      NonEmptyDrops(a, b[..|b| - 1]);
    }
  }

  lemma ContainsIff(s: string, part: string)
    ensures Contains(s, part) <==> exists before, after :: s == before + part + after
  {
    if i :| 0 <= i <= |s| && part <= s[i..] {
      assert s == s[..i] + part + s[i + |part|..];
    }
    if before, after :| s == before + part + after {
      assert part <= s[|before|..];
    }
  }

  lemma {:induction false} NonEmptyKeepsAll(parts: seq<string>)
    requires "" !in parts
    ensures NonEmpty(parts) == parts
  {
    if parts != [] {
      var n := |parts| - 1;
      NonEmptyKeepsAll(parts[..n]);
      assert parts == parts[..n] + [parts[n]];
    }
  }

  /** A list of non-empty comma-free items survives being stored. */
  lemma ParseJoined(items: seq<string>)
    requires forall s :: s in items ==> s != "" && Plain(s, ',')
    ensures ParseList(Join(items, ",")) == items
  {
    if items == [] {
      assert NonEmpty([""]) == NonEmpty([""][..0]);
    } else {
      SplitJoin(items, ',', "");
      assert [','] + "" == ",";
      var parts := Split(Join(items, ","), ',');
      assert parts == items by {
        forall i | 0 <= i < |items| ensures parts[i] == items[i] {
          if i > 0 { assert parts[i] == "" + items[i]; }
        }
      }
      NonEmptyKeepsAll(items);
    }
  }
}
