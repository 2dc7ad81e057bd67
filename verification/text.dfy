/**
  The few pieces of Go's `strings` package the router relies on: lower-casing,
  prefix tests, `strings.Cut` and `strings.Join`, plus a splitter that undoes
  the `", "` join used for the raw value of list flags.
 */
module Text {
  import opened Wrappers

  /** Lower-cases one ASCII letter and leaves every other character alone. */
  function LowerChar(c: char): char {
    if 'A' <= c <= 'Z' then (c as int + 32) as char else c
  }

  /** `strings.ToLower`, restricted to the ASCII letters. */
  function ToLower(s: string): (r: string)
    ensures |r| == |s|
    ensures forall i :: 0 <= i < |s| ==> r[i] == LowerChar(s[i])
    ensures forall i :: 0 <= i < |r| ==> !('A' <= r[i] <= 'Z')
  {
    if s == [] then [] else [LowerChar(s[0])] + ToLower(s[1..])
  }

  /** Lower-casing twice is lower-casing once. */
  lemma ToLowerIdempotent(s: string)
    ensures ToLower(ToLower(s)) == ToLower(s)
  {
    var t := ToLower(s);
    assert forall i :: 0 <= i < |t| ==> LowerChar(t[i]) == t[i];
  }

  /** `strings.HasPrefix(s, "--")`: the marker of a flag token. */
  predicate IsFlagToken(s: string) {
    |s| >= 2 && s[0] == '-' && s[1] == '-'
  }

  /** The index of the first occurrence of `c` in `s`, if any. */
  function IndexOf(s: string, c: char): (r: Option<nat>)
    ensures r.Some? ==> r.value < |s| && s[r.value] == c && c !in s[..r.value]
    ensures r.None? ==> c !in s
  {
    if s == [] then None
    else if s[0] == c then Some(0)
    else match IndexOf(s[1..], c)
      case None => None
      case Some(i) =>
        assert s[..i + 1] == [s[0]] + s[1..][..i];
        Some(i + 1)
  }

  /**
    `strings.Cut(s, sep)` for a one-character separator: the text before and
    after the first `sep`, and whether there was one.
   */
  function Cut(s: string, sep: char): (r: (string, string, bool))
    ensures r.2 ==> s == r.0 + [sep] + r.1 && sep !in r.0
    ensures !r.2 ==> r.0 == s && r.1 == [] && sep !in s
  {
    match IndexOf(s, sep)
    case None => (s, [], false)
    case Some(i) =>
      assert s == s[..i] + [sep] + s[i + 1..];
      (s[..i], s[i + 1..], true)
  }

  /** Cutting a text made of a `sep`-free head, `sep` and a tail gives back the head and the tail. */
  lemma CutJoined(head: string, sep: char, tail: string)
    requires sep !in head
    ensures Cut(head + [sep] + tail, sep) == (head, tail, true)
  {
    var s := head + [sep] + tail;
    assert s[|head|] == sep;
    assert s[..|head|] == head;
    assert s[|head| + 1..] == tail;
  }

  /** `strings.Join(parts, sep)`. */
  function Join(parts: seq<string>, sep: string): (r: string)
    ensures parts == [] ==> r == []
    ensures |parts| > 0 ==> parts[0] <= r
  {
    if parts == [] then []
    else if |parts| == 1 then parts[0]
    else parts[0] + sep + Join(parts[1..], sep)
  }

  /** The separator `strings.Join` places between list-flag elements. */
  const ListSeparator: string := ", "

  /**
    `strings.Split(s, ", ")`: the pieces of `s` between occurrences of the
    separator, scanned left to right.
   */
  function SplitList(s: string): (r: seq<string>)
    ensures |r| >= 1
  {
    if |s| == 0 then [[]]
    else if |s| >= 2 && s[0] == ',' && s[1] == ' ' then [[]] + SplitList(s[2..])
    else
      var rest := SplitList(s[1..]);
      [[s[0]] + rest[0]] + rest[1..]
  }

  /** A comma-free head is kept whole as the start of the first piece. */
  lemma {:induction false} SplitListCommaFreeHead(head: string, tail: string)
    requires ',' !in head
    ensures SplitList(head + tail) == [head + SplitList(tail)[0]] + SplitList(tail)[1..]
    decreases |head|
  {
    if head != [] {
      var s := head + tail;
      assert s[0] == head[0] && s[0] != ',';
      assert s[1..] == head[1..] + tail;
      SplitListCommaFreeHead(head[1..], tail);
      var t := SplitList(tail);
      assert [s[0]] + (head[1..] + t[0]) == head + t[0];
    } else {
      var r := SplitList(tail);
      assert head + tail == tail;
      assert [] + r[0] == r[0];
      assert [r[0]] + r[1..] == r;
    }
  }

  /** Splitting undoes joining, as long as no piece contains a comma. */
  lemma {:induction false} SplitJoin(parts: seq<string>)
    requires |parts| >= 1
    requires forall i :: 0 <= i < |parts| ==> ',' !in parts[i]
    ensures SplitList(Join(parts, ListSeparator)) == parts
    decreases |parts|
  {
    if |parts| == 1 {
      SplitListCommaFreeHead(parts[0], []);
      assert parts[0] + [] == parts[0];
    } else {
      var tail := ListSeparator + Join(parts[1..], ListSeparator);
      assert Join(parts, ListSeparator) == parts[0] + tail;
      SplitListCommaFreeHead(parts[0], tail);
      assert tail[2..] == Join(parts[1..], ListSeparator);
      SplitJoin(parts[1..]);
      assert SplitList(tail) == [[]] + parts[1..];
      assert parts[0] + [] == parts[0];
      assert [parts[0]] + parts[1..] == parts;
    }
  }
}
