/** Options and the string operations that the Go sources take from package strings and package sort. */
module Text {

  datatype Option<+T> = None | Some(value: T)

  // int32 as Go has it: a fixed range, with wrap-around made explicit by Inc32.
  const MAX_INT32 := 0x7fff_ffff
  type int32 = n: int | -0x8000_0000 <= n <= 0x7fff_ffff

  /** Go's n + 1 on int32. */
  function Inc32(n: int32): (r: int32)
    ensures r == n + 1 <==> n < MAX_INT32
  {
    if n == MAX_INT32 then -0x8000_0000 else n + 1
  }

  /** unicode.IsSpace. */
  predicate IsSpace(c: char) {
    var n := c as int;
    || 0x09 <= n <= 0x0d || n == 0x20 || n == 0x85 || n == 0xa0 || n == 0x1680
    || 0x2000 <= n <= 0x200a || n == 0x2028 || n == 0x2029 || n == 0x202f || n == 0x205f || n == 0x3000
  }

  function TrimLeft(s: string): (r: string)
    ensures |r| <= |s|
    ensures r != "" ==> !IsSpace(r[0])
  {
    if s != "" && IsSpace(s[0]) then TrimLeft(s[1..]) else s
  }

  function TrimRight(s: string): (r: string)
    ensures r <= s
    ensures r != "" ==> !IsSpace(r[|r| - 1])
  {
    if s != "" && IsSpace(s[|s| - 1]) then TrimRight(s[..|s| - 1]) else s
  }

  /** strings.TrimSpace. */
  function Trim(s: string): (r: string)
    ensures r != "" ==> !IsSpace(r[0]) && !IsSpace(r[|r| - 1])
  {
    TrimRight(TrimLeft(s))
  }

  lemma TrimFixed(s: string)
    requires s != "" ==> !IsSpace(s[0]) && !IsSpace(s[|s| - 1])
    ensures Trim(s) == s
  {
  }

  ghost predicate AllSpace(s: string) { forall i :: 0 <= i < |s| ==> IsSpace(s[i]) }

  lemma {:induction false} TrimLeftCuts(s: string) returns (m: nat)
    ensures m <= |s| && TrimLeft(s) == s[m..] && AllSpace(s[..m])
  {
    if s != "" && IsSpace(s[0]) {
      var k := TrimLeftCuts(s[1..]);
      m := k + 1;
      assert s[..m] == [s[0]] + s[1..][..k];
    } else {
      m := 0;
    }
  }

  lemma {:induction false} TrimRightCuts(s: string)
    ensures AllSpace(s[|TrimRight(s)|..])
  {
    if s != "" && IsSpace(s[|s| - 1]) {
      var init := s[..|s| - 1];
      TrimRightCuts(init);
      assert s[|TrimRight(s)|..] == init[|TrimRight(s)|..] + [s[|s| - 1]];
    }
  }

  /** Trimming cuts nothing but white space off the ends. */
  lemma TrimCuts(s: string) returns (left: string, right: string)
    ensures s == left + Trim(s) + right && AllSpace(left) && AllSpace(right)
  {
    var m := TrimLeftCuts(s);
    var t := TrimLeft(s);
    TrimRightCuts(t);
    left, right := s[..m], t[|Trim(s)|..];
    assert t == Trim(s) + right && s == left + t;
  }

  lemma TrimTwice(s: string)
    ensures Trim(Trim(s)) == Trim(s)
  {
    TrimFixed(Trim(s));
  }

  /** unicode.ToLower on ASCII, and the only two other characters it maps into ASCII. */
  function LowerChar(c: char): char {
    if 'A' <= c <= 'Z' then c + 32 as char
    else if c == '\U{212A}' then 'k'
    else if c == '\U{0130}' then 'i'
    else c
  }

  function Lower(s: string): (r: string)
    ensures |r| == |s|
    ensures forall i :: 0 <= i < |s| ==> r[i] == LowerChar(s[i])
  {
    seq(|s|, i requires 0 <= i < |s| => LowerChar(s[i]))
  }

  /** The characters that become a small ASCII letter: that letter, its capital, the Kelvin sign and the dotted I. */
  lemma LowersTo(c: char, small: char)
    requires 'a' <= small <= 'z'
    ensures LowerChar(c) == small
            <==> c == small || c as int + 32 == small as int
                 || (c == '\U{212A}' && small == 'k') || (c == '\U{0130}' && small == 'i')
  {
  }

  /** White space among the ASCII characters: tab, line feed, the two vertical feeds, carriage return and blank. */
  lemma AsciiSpace(c: char)
    requires c as int < 0x80
    ensures IsSpace(c) <==> c as int in {9, 10, 11, 12, 13, 32}
  {
  }

  /** strings.EqualFold against a word of ASCII letters other than k and s. */
  predicate EqualFold(s: string, word: string) {
    |s| == |word| && forall i :: 0 <= i < |s| ==> FoldAscii(s[i]) == FoldAscii(word[i])
  }

  function FoldAscii(c: char): char {
    if 'A' <= c <= 'Z' then c + 32 as char else c
  }

  /** The same letters, each in whichever of its two ASCII cases. */
  lemma EqualFoldExactly(s: string, word: string)
    ensures EqualFold(s, word) <==> |s| == |word| && forall i :: 0 <= i < |s| ==> SameLetter(s[i], word[i])
  {
  }

  predicate SameLetter(c: char, d: char) {
    || c == d
    || ('A' <= c <= 'Z' && d as int == c as int + 32)
    || ('A' <= d <= 'Z' && c as int == d as int + 32)
  }

  /** The normal form under which pool and agent names are compared: lower case, trimmed. */
  function Normal(s: string): string {
    Lower(Trim(s))
  }

  function FirstNonEmpty(a: string, b: string): string {
    if Trim(a) != "" then Trim(a) else Trim(b)
  }

  predicate Contains(s: string, part: string) {
    part <= s || (s != "" && Contains(s[1..], part))
  }

  /** The order of sort.Strings. */
  predicate Less(a: string, b: string) {
    b != "" && (a == "" || a[0] < b[0] || (a[0] == b[0] && Less(a[1..], b[1..])))
  }

  lemma {:induction false} LessTrichotomy(a: string, b: string)
    ensures Less(a, b) || Less(b, a) || a == b
    ensures !(Less(a, b) && Less(b, a))
  {
    if a != "" && b != "" && a[0] == b[0] {
      LessTrichotomy(a[1..], b[1..]);
      assert a == [a[0]] + a[1..] && b == [b[0]] + b[1..];
    }
  }

  lemma {:induction false} LessTransitive(a: string, b: string, c: string)
    requires Less(a, b) && Less(b, c)
    ensures Less(a, c)
  {
    if a != "" && a[0] == b[0] == c[0] {
      LessTransitive(a[1..], b[1..], c[1..]);
    }
  }

  function SetOf(ids: seq<string>): set<string> { set id | id in ids }

  ghost predicate Ascending(s: seq<string>) {
    forall i, j :: 0 <= i < j < |s| ==> Less(s[i], s[j])
  }

  /** Puts x into its place in an ascending sequence that does not hold it. */
  function Insert(x: string, s: seq<string>): (r: seq<string>)
    requires Ascending(s) && x !in s
    ensures Ascending(r) && |r| == |s| + 1
    ensures forall y :: y in r <==> y == x || y in s
  {
    if s == [] then [x]
    else
      assert s == [s[0]] + s[1..];
      LessTrichotomy(x, s[0]);
      if Less(x, s[0]) then
        assert forall j :: 0 < j < |s| ==> Less(x, s[j]) by {
          forall j | 0 < j < |s| ensures Less(x, s[j]) { LessTransitive(x, s[0], s[j]); }
        }
        [x] + s
      else
        var rest := Insert(x, s[1..]);
        assert forall y :: y in rest ==> Less(s[0], y) by {
          forall y | y in rest ensures Less(s[0], y) {
            if y in s[1..] { var j :| 0 <= j < |s| - 1 && s[1..][j] == y; assert s[j + 1] == y; }
          }
        }
        [s[0]] + rest
  }

  ghost predicate SortedBy(r: seq<string>, s: set<string>) {
    Ascending(r) && forall x :: x in r <==> x in s
  }

  /** The keys of a map in the order of sort.Strings. */
  ghost function SortedKeys(s: set<string>): (r: seq<string>)
    ensures SortedBy(r, s)
  {
    if s == {} then [] else var x :| x in s; Insert(x, SortedKeys(s - {x}))
  }

  /** Sorting forgets the order in which a map was iterated. */
  lemma {:induction false} SortedUnique(a: seq<string>, b: seq<string>, s: set<string>)
    requires SortedBy(a, s) && SortedBy(b, s)
    ensures a == b
  {
    EmptySorted(a, s);
    EmptySorted(b, s);
    if a != [] {
      HeadIsLeast(a, b[0]);
      HeadIsLeast(b, a[0]);
      LessTrichotomy(a[0], b[0]);
      TailSorted(a, s);
      TailSorted(b, s);
      SortedUnique(a[1..], b[1..], s - {a[0]});
    }
  }

  lemma EmptySorted(a: seq<string>, s: set<string>)
    requires SortedBy(a, s)
    ensures a == [] <==> s == {}
  {
    if a != [] {
      assert a[0] in s;
    } else {
      assert forall x :: x in s ==> x in a;
    }
  }

  lemma HeadIsLeast(a: seq<string>, x: string)
    requires Ascending(a) && x in a
    ensures x == a[0] || Less(a[0], x)
  {
  }

  lemma TailSorted(a: seq<string>, s: set<string>)
    requires SortedBy(a, s) && a != []
    ensures SortedBy(a[1..], s - {a[0]})
  {
    assert a == [a[0]] + a[1..];
    LessTrichotomy(a[0], a[0]);
    forall j | 0 <= j < |a| - 1
      ensures a[1..][j] != a[0]
    {
      assert Less(a[0], a[j + 1]);
    }
  }
}
