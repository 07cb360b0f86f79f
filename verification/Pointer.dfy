/** JSON Pointers (RFC 6901, sections 3 and 4), after ParsePointer in internal/domain/access/policy.go. */
module Pointer {
  import opened Wrappers

  // ---------------------------------------------------------------- one segment

  /** Every '~' is followed by '0' or '1'. */
  predicate WellFormed(s: string) {
    if s == [] then true
    else if s[0] == '~' then |s| >= 2 && (s[1] == '0' || s[1] == '1') && WellFormed(s[2..])
    else WellFormed(s[1..])
  }

  /** The decoding of RFC 6901 read from left to right. */
  function Decode(s: string): string {
    if s == [] then []
    else if s[0] == '~' && |s| >= 2 then [if s[1] == '0' then '~' else '/'] + Decode(s[2..])
    else [s[0]] + Decode(s[1..])
  }

  function Encode(s: string): string {
    if s == [] then []
    else (if s[0] == '~' then "~0" else if s[0] == '/' then "~1" else [s[0]]) + Encode(s[1..])
  }

  /** strings.ReplaceAll(s, "~" + digit, with) */
  function ReplaceAll(s: string, digit: char, with: char): string {
    if |s| < 2 then s
    else if s[0] == '~' && s[1] == digit then [with] + ReplaceAll(s[2..], digit, with)
    else [s[0]] + ReplaceAll(s[1..], digit, with)
  }

  lemma ReplaceHead(c: char, s: string, digit: char, with: char)
    requires c != '~' || s == [] || s[0] != digit
    ensures ReplaceAll([c] + s, digit, with) == [c] + ReplaceAll(s, digit, with)
  {
    assert ([c] + s)[1..] == s;
  }

  lemma ReplacePair(s: string, digit: char, with: char)
    ensures ReplaceAll(['~', digit] + s, digit, with) == [with] + ReplaceAll(s, digit, with)
  {
    assert (['~', digit] + s)[2..] == s;
  }

  lemma DecodeHead(c: char, s: string)
    requires c != '~'
    ensures Decode([c] + s) == [c] + Decode(s)
  {
    assert ([c] + s)[1..] == s;
  }

  lemma DecodePair(digit: char, s: string)
    ensures Decode(['~', digit] + s) == [if digit == '0' then '~' else '/'] + Decode(s)
  {
    assert (['~', digit] + s)[2..] == s;
  }

  lemma ReplaceEscapedTilde(s: string)
    ensures ReplaceAll(['~', '0'] + s, '1', '/') == ['~', '0'] + ReplaceAll(s, '1', '/')
  {
    var rest := ReplaceAll(s, '1', '/');
    ReplaceHead('~', ['0'] + s, '1', '/');
    ReplaceHead('0', s, '1', '/');
    assert ['~'] + (['0'] + s) == ['~', '0'] + s;
    assert ['~'] + (['0'] + rest) == ['~', '0'] + rest;
  }

  /** Replacing "~1" first and "~0" second decodes a well-formed segment. */
  lemma {:induction false} TwoReplacementsDecode(s: string)
    requires WellFormed(s)
    ensures ReplaceAll(ReplaceAll(s, '1', '/'), '0', '~') == Decode(s)
  {
    if s != [] {
      var n := if s[0] == '~' then 2 else 1;
      var rest := s[n..];
      var once := ReplaceAll(rest, '1', '/');
      TwoReplacementsDecode(rest);
      if s[0] != '~' {
        assert s == [s[0]] + rest;
        ReplaceHead(s[0], rest, '1', '/');
        ReplaceHead(s[0], once, '0', '~');
        DecodeHead(s[0], rest);
      } else {
        assert s == ['~', s[1]] + rest;
        DecodePair(s[1], rest);
        if s[1] == '1' {
          ReplacePair(rest, '1', '/');
          ReplaceHead('/', once, '0', '~');
        } else {
          ReplaceEscapedTilde(rest);
          ReplacePair(once, '0', '~');
        }
      }
    }
  }

  lemma {:induction false} EncodeDecodes(s: string)
    ensures WellFormed(Encode(s)) && Decode(Encode(s)) == s && '/' !in Encode(s)
  {
    if s != [] {
      EncodeDecodes(s[1..]);
      var head := if s[0] == '~' then "~0" else if s[0] == '/' then "~1" else [s[0]];
      assert Encode(s) == head + Encode(s[1..]);
      if |head| == 2 { assert Encode(s)[2..] == Encode(s[1..]); } else { assert Encode(s)[1..] == Encode(s[1..]); }
      assert s == [s[0]] + s[1..];
    }
  }

  lemma {:induction false} DecodeEncodes(s: string)
    requires WellFormed(s) && '/' !in s
    ensures Encode(Decode(s)) == s
  {
    if s != [] {
      var n := if s[0] == '~' then 2 else 1;
      DecodeEncodes(s[n..]);
      assert Decode(s)[1..] == Decode(s[n..]);
      assert s == s[..n] + s[n..];
      assert s[0] in s;
    }
  }

  // ---------------------------------------------------------------- the whole pointer

  /** strings.Split(s, "/") */
  function Split(s: string): (parts: seq<string>)
    ensures parts != []
  {
    if s == [] then [[]]
    else
      var rest := Split(s[1..]);
      if s[0] == '/' then [[]] + rest else [[s[0]] + rest[0]] + rest[1..]
  }

  function Join(parts: seq<string>): string
    requires parts != []
  {
    if |parts| == 1 then parts[0] else parts[0] + ['/'] + Join(parts[1..])
  }

  lemma {:induction false} SplitJoins(s: string)
    ensures Join(Split(s)) == s && forall i | 0 <= i < |Split(s)| :: '/' !in Split(s)[i]
  {
    if s != [] {
      SplitJoins(s[1..]);
      var rest := Split(s[1..]);
      assert s == [s[0]] + s[1..];
      if s[0] == '/' {
        assert ([[]] + rest)[1..] == rest;
      } else {
        var parts := [[s[0]] + rest[0]] + rest[1..];
        assert parts[1..] == rest[1..];
      }
    }
  }

  lemma {:induction false} SplitPrefix(p: string, s: string)
    requires '/' !in p
    ensures Split(p + s) == [p + Split(s)[0]] + Split(s)[1..]
  {
    if p == [] {
      assert p + s == s && p + Split(s)[0] == Split(s)[0];
      assert Split(s) == [Split(s)[0]] + Split(s)[1..];
    } else {
      assert (p + s)[1..] == p[1..] + s && (p + s)[0] == p[0];
      assert p[0] in p && p == [p[0]] + p[1..];
      SplitPrefix(p[1..], s);
      assert Split(p[1..] + s)[1..] == Split(s)[1..];
      assert [p[0]] + (p[1..] + Split(s)[0]) == p + Split(s)[0];
    }
  }

  lemma {:induction false} JoinSplits(parts: seq<string>)
    requires parts != [] && forall i | 0 <= i < |parts| :: '/' !in parts[i]
    ensures Split(Join(parts)) == parts
  {
    if |parts| == 1 {
      SplitPrefix(parts[0], []);
      assert parts[0] + [] == parts[0];
    } else {
      JoinSplits(parts[1..]);
      var tail := ['/'] + Join(parts[1..]);
      assert tail[1..] == Join(parts[1..]);
      assert parts[0] + ['/'] + Join(parts[1..]) == parts[0] + tail;
      SplitPrefix(parts[0], tail);
      assert Split(tail) == [[]] + parts[1..] && Split(tail)[1..] == parts[1..];
      assert parts[0] + [] == parts[0] && parts == [parts[0]] + parts[1..];
    }
  }

  function Map(f: string -> string, parts: seq<string>): (r: seq<string>)
    ensures |r| == |parts| && forall i | 0 <= i < |r| :: r[i] == f(parts[i])
  {
    seq(|parts|, i requires 0 <= i < |parts| => f(parts[i]))
  }

  predicate AllWellFormed(parts: seq<string>) { forall i | 0 <= i < |parts| :: WellFormed(parts[i]) }

  lemma SplitEscape(s: string)
    requires |s| >= 2 && s[0] == '~' && s[1] != '/'
    ensures Split(s) == [['~', s[1]] + Split(s[2..])[0]] + Split(s[2..])[1..]
  {
    var later := Split(s[2..]);
    assert s[1..][1..] == s[2..];
    assert ['~'] + ([s[1]] + later[0]) == ['~', s[1]] + later[0];
    assert Split(s[1..])[1..] == later[1..];
  }

  lemma EscapeFirst(digit: char, later: seq<string>)
    requires later != []
    ensures AllWellFormed([['~', digit] + later[0]] + later[1..])
        <==> (digit == '0' || digit == '1') && AllWellFormed(later)
  {
    var parts := [['~', digit] + later[0]] + later[1..];
    assert parts[0][2..] == later[0] && forall i | 1 <= i < |later| :: parts[i] == later[i];
    assert WellFormed(parts[0]) <==> (digit == '0' || digit == '1') && WellFormed(later[0]);
  }

  /** A slash never completes an escape, so a text is well-formed piece by piece. */
  lemma {:induction false} WellFormedByParts(s: string)
    ensures AllWellFormed(Split(s)) <==> WellFormed(s)
  {
    if s != [] {
      var rest := Split(s[1..]);
      WellFormedByParts(s[1..]);
      if s[0] == '/' {
        var parts := [[]] + rest;
        assert forall i | 0 <= i < |rest| :: parts[i + 1] == rest[i];
      } else if s[0] != '~' {
        var parts := [[s[0]] + rest[0]] + rest[1..];
        assert parts[0][1..] == rest[0] && forall i | 1 <= i < |rest| :: parts[i] == rest[i];
      } else if |s| >= 2 && s[1] != '/' {
        WellFormedByParts(s[2..]);
        SplitEscape(s);
        EscapeFirst(s[1], Split(s[2..]));
      } else {
        assert Split(s)[0] == ['~'];
        assert !WellFormed(Split(s)[0]);
      }
    }
  }

  /** The segments a pointer stands for, or None for a text that is not a non-empty pointer. */
  function Parse(path: string): Option<seq<string>> {
    if path == [] || path[0] != '/' || !AllWellFormed(Split(path[1..])) then None
    else Some(Map(Decode, Split(path[1..])))
  }

  function Format(segments: seq<string>): string
    requires segments != []
  {
    ['/'] + Join(Map(Encode, segments))
  }

  /** Exactly the texts that start with a slash and whose escapes are well-formed are accepted. */
  lemma ParseAccepts(path: string)
    ensures Parse(path).Some? <==> path != [] && path[0] == '/' && WellFormed(path)
  {
    if path != [] && path[0] == '/' { WellFormedByParts(path[1..]); }
  }

  /** Encoding segments and parsing the result returns them. */
  lemma FormatParses(segments: seq<string>)
    requires segments != []
    ensures Parse(Format(segments)) == Some(segments)
  {
    var parts := Map(Encode, segments);
    forall i | 0 <= i < |segments| ensures WellFormed(parts[i]) && Decode(parts[i]) == segments[i] && '/' !in parts[i] {
      EncodeDecodes(segments[i]);
    }
    JoinSplits(parts);
    assert Format(segments)[1..] == Join(parts);
    assert Map(Decode, parts) == segments;
  }

  /** Parsing a pointer and encoding the result returns the text. */
  lemma ParseFormats(path: string)
    requires Parse(path).Some?
    ensures Parse(path).value != [] && Format(Parse(path).value) == path
  {
    var parts := Split(path[1..]);
    SplitJoins(path[1..]);
    MapDecodeEncodes(parts);
    assert path == ['/'] + path[1..];
  }

  lemma MapDecodeEncodes(parts: seq<string>)
    requires AllWellFormed(parts) && forall i | 0 <= i < |parts| :: '/' !in parts[i]
    ensures Map(Encode, Map(Decode, parts)) == parts
  {
    forall i | 0 <= i < |parts| ensures Map(Encode, Map(Decode, parts))[i] == parts[i] { DecodeEncodes(parts[i]); }
  }

  // ---------------------------------------------------------------- the parser

  lemma {:induction false} WellFormedFrom(s: string, j: nat)
    requires j <= |s|
    ensures j == |s| ==> WellFormed(s[j..])
    ensures j < |s| && s[j] != '~' ==> (WellFormed(s[j..]) <==> WellFormed(s[j + 1..]))
    ensures j < |s| && s[j] == '~' ==>
      (WellFormed(s[j..]) <==> j + 1 < |s| && (s[j + 1] == '0' || s[j + 1] == '1') && WellFormed(s[j + 2..]))
  {
    if j < |s| {
      assert s[j..][1..] == s[j + 1..];
      if j + 1 < |s| { assert s[j..][2..] == s[j + 2..]; }
    }
  }

  /** The inner loop of ParsePointer. */
  method Validate(part: string) returns (ok: bool)
    ensures ok <==> WellFormed(part)
  {
    var j := 0;
    assert part[0..] == part;
    while j < |part|
      invariant 0 <= j <= |part| && (WellFormed(part) <==> WellFormed(part[j..]))
    {
      WellFormedFrom(part, j);
      if part[j] == '~' {
        j := j + 1;
        if j >= |part| || (part[j] != '0' && part[j] != '1') { return false; }
      }
      j := j + 1;
    }
    return true;
  }

  method ParsePointer(path: string) returns (segments: Option<seq<string>>)
    ensures segments == Parse(path)
  {
    if path == [] || path[0] != '/' { return None; }
    var parts := Split(path[1..]);
    ghost var split := parts;
    for i := 0 to |parts|
      invariant |parts| == |split| && parts[i..] == split[i..]
      invariant forall k | 0 <= k < i :: WellFormed(split[k]) && parts[k] == Decode(split[k])
    {
      assert parts[i] == parts[i..][0] == split[i];
      var ok := Validate(parts[i]);
      if !ok { return None; }
      TwoReplacementsDecode(parts[i]);
      parts := parts[i := ReplaceAll(ReplaceAll(parts[i], '1', '/'), '0', '~')];
    }
    assert parts == Map(Decode, split);
    return Some(parts);
  }
}
