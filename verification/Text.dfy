/** Vocabulary shared by the modules: optional values, error returns and text. */
module Text {

  datatype Option<+T> = None | Some(value: T)

  datatype Result<+T, +E> = Ok(value: T) | Err(error: E)

  function One(b: bool): nat {
    if b then 1 else 0
  }

  /** `parts.join(separator)` */
  function Join(parts: seq<string>, separator: string): string {
    if parts == [] then ""
    else if |parts| == 1 then parts[0]
    else parts[0] + separator + Join(parts[1..], separator)
  }

  ghost predicate Distinct<T>(s: seq<T>) {
    forall i, j :: 0 <= i < j < |s| ==> s[i] != s[j]
  }

  lemma {:induction false} LengthBound(s: set<string>) returns (n: nat)
    ensures forall x :: x in s ==> |x| < n
  {
    if s == {} {
      n := 0;
    } else {
      var x :| x in s;
      var m := LengthBound(s - {x});
      n := if |x| < m then m else |x| + 1;
    }
  }

  /** There is always another text. */
  lemma {:induction false} FreshText(s: set<string>) returns (x: string)
    ensures x !in s
  {
    var n := LengthBound(s);
    x := seq(n, _ => 'x');
  }

  /** Text order, code unit by code unit: the `<` of JavaScript strings. */
  predicate Less(a: string, b: string) {
    b != [] && (a == [] || a[0] < b[0] || (a[0] == b[0] && Less(a[1..], b[1..])))
  }

  lemma {:induction false} LessIrreflexive(a: string)
    ensures !Less(a, a)
  {
    if a != [] {
      LessIrreflexive(a[1..]);
    }
  }

  lemma {:induction false} LessTransitive(a: string, b: string, c: string)
    requires Less(a, b) && Less(b, c)
    ensures Less(a, c)
  {
    if a != [] && a[0] == b[0] == c[0] {
      LessTransitive(a[1..], b[1..], c[1..]);
    }
  }

  lemma {:induction false} LessTotal(a: string, b: string)
    requires a != b
    ensures Less(a, b) || Less(b, a)
  {
    if a != [] && b != [] && a[0] == b[0] {
      assert a == [a[0]] + a[1..] && b == [b[0]] + b[1..];
      LessTotal(a[1..], b[1..]);
    }
  }

  /** Text that starts with separator-free text and a separator starts so in one way only. */
  lemma {:induction false} CutIsUnique(separator: char, a: string, b: string, a': string, b': string)
    requires separator !in a && separator !in a'
    requires a + [separator] + b == a' + [separator] + b'
    ensures a == a' && b == b'
  {
    var left, right := a + [separator] + b, a' + [separator] + b';
    assert left[1..] == if a == [] then b else a[1..] + [separator] + b;
    assert right[1..] == if a' == [] then b' else a'[1..] + [separator] + b';
    assert a != [] ==> left[0] == a[0];
    assert a' != [] ==> right[0] == a'[0];
    if a != [] {
      assert a == [a[0]] + a[1..] && a' == [a'[0]] + a'[1..];
      CutIsUnique(separator, a[1..], b, a'[1..], b');
    }
  }

  /** `s.split(separator)` for a one-character separator. */
  function Split(s: string, separator: char): (r: seq<string>)
    ensures r != []
  {
    if s == [] then [""]
    else
      var rest := Split(s[1..], separator);
      if s[0] == separator then [""] + rest else [[s[0]] + rest[0]] + rest[1..]
  }

  lemma {:induction false} SplitWhole(s: string, separator: char)
    requires separator !in s
    ensures Split(s, separator) == [s]
  {
    if s != [] {
      SplitWhole(s[1..], separator);
      assert s == [s[0]] + s[1..];
    }
  }

  lemma {:induction false} SplitFirst(a: string, b: string, separator: char)
    requires separator !in a
    ensures Split(a + [separator] + b, separator) == [a] + Split(b, separator)
  {
    var whole := a + [separator] + b;
    if a == [] {
      assert whole[1..] == b;
    } else {
      assert whole[1..] == a[1..] + [separator] + b;
      SplitFirst(a[1..], b, separator);
      assert a == [a[0]] + a[1..];
    }
  }

  // Case and blanks, for the ASCII range

  function LowerChar(c: char): char {
    if 'A' <= c <= 'Z' then c + 32 as char else c
  }

  /** `s.toLowerCase()` */
  function ToLower(s: string): (r: string)
    ensures |r| == |s|
  {
    if s == [] then [] else [LowerChar(s[0])] + ToLower(s[1..])
  }

  lemma {:induction false} LowerTwice(s: string)
    ensures ToLower(ToLower(s)) == ToLower(s)
  {
    if s != [] {
      LowerTwice(s[1..]);
    }
  }

  /** Every letter of a lower-cased text is that of the text, with the capitals A to Z made small. */
  lemma {:induction false} LowerEach(s: string, i: nat)
    requires i < |s|
    ensures ToLower(s)[i] == if 'A' <= s[i] <= 'Z' then (s[i] as int - 'A' as int + 'a' as int) as char else s[i]
  {
    if i > 0 {
      LowerEach(s[1..], i - 1);
    }
  }

  /** The white space and line terminators of JavaScript. */
  predicate IsBlank(c: char) {
    || 0x09 as char <= c <= 0x0D as char || c == ' '
    || c in [0xA0 as char, 0x1680 as char, 0x2028 as char, 0x2029 as char, 0x202F as char, 0x205F as char,
             0x3000 as char, 0xFEFF as char]
    || 0x2000 as char <= c <= 0x200A as char
  }

  ghost predicate AllBlank(s: string) {
    forall i :: 0 <= i < |s| ==> IsBlank(s[i])
  }

  function TrimStart(s: string): string {
    if s != [] && IsBlank(s[0]) then TrimStart(s[1..]) else s
  }

  function TrimEnd(s: string): string {
    if s != [] && IsBlank(s[|s| - 1]) then TrimEnd(s[..|s| - 1]) else s
  }

  /** `s.trim()` */
  function Trim(s: string): string {
    TrimEnd(TrimStart(s))
  }

  lemma {:induction false} StartTrimmed(s: string) returns (n: nat)
    ensures n <= |s| && AllBlank(s[..n]) && TrimStart(s) == s[n..]
    ensures TrimStart(s) != "" ==> !IsBlank(TrimStart(s)[0])
  {
    n := 0;
    if s != [] && IsBlank(s[0]) {
      n := StartTrimmed(s[1..]);
      assert s[..n + 1] == [s[0]] + s[1..][..n];
      n := n + 1;
    }
  }

  lemma {:induction false} EndTrimmed(s: string) returns (n: nat)
    ensures n <= |s| && AllBlank(s[n..]) && TrimEnd(s) == s[..n]
    ensures TrimEnd(s) != "" ==> !IsBlank(TrimEnd(s)[|TrimEnd(s)| - 1])
  {
    n := |s|;
    if s != [] && IsBlank(s[|s| - 1]) {
      n := EndTrimmed(s[..|s| - 1]);
      assert s[n..] == s[..|s| - 1][n..] + [s[|s| - 1]];
      assert s[..n] == s[..|s| - 1][..n];
    }
  }

  /** Trimming takes the blanks off both ends, and nothing else. */
  lemma {:induction false} TrimmedExactly(s: string) returns (a: nat, b: nat)
    ensures a <= b <= |s| && Trim(s) == s[a..b] && AllBlank(s[..a]) && AllBlank(s[b..])
    ensures Trim(s) != "" ==> !IsBlank(s[a]) && !IsBlank(s[b - 1])
  {
    a := StartTrimmed(s);
    b := EndTrimmed(s[a..]);
    assert s[a..][..b] == s[a..a + b] && s[a..][b..] == s[a + b..];
    b := a + b;
  }

  predicate ContainsAt(s: string, part: string, i: nat) {
    i + |part| <= |s| && s[i..i + |part|] == part
  }

  predicate Contains(s: string, part: string) {
    exists i :: 0 <= i <= |s| && ContainsAt(s, part, i)
  }
}
