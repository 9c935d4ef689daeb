/** Python string behaviour the feeds module relies on: `str.split(sep)` with
    an explicit one-character separator, its inverse `sep.join(parts)`, and the
    `int(...)` parse of a decimal literal (used on the comma-separated
    `capture_frames` parameter). */
module Text {
  import opened Results

  /** `s.split(sep)`: the pieces between occurrences of `sep`, never empty. */
  function Split(s: string, sep: char): (parts: seq<string>)
    ensures |parts| >= 1
    ensures forall i :: 0 <= i < |parts| ==> sep !in parts[i]
    decreases |s|
  {
    if |s| == 0 then [""]
    else
      var rest := Split(s[1..], sep);
      if s[0] == sep then [""] + rest
      else [[s[0]] + rest[0]] + rest[1..]
  }

  /** `sep.join(parts)`. */
  function Join(parts: seq<string>, sep: char): string
    decreases |parts|
  {
    if |parts| == 0 then ""
    else if |parts| == 1 then parts[0]
    else parts[0] + [sep] + Join(parts[1..], sep)
  }

  /** Joining the pieces of a split gives back the original string. */
  lemma {:induction false} JoinSplit(s: string, sep: char)
    ensures Join(Split(s, sep), sep) == s
    decreases |s|
  {
    if |s| > 0 {
      var rest := Split(s[1..], sep);
      JoinSplit(s[1..], sep);
      if s[0] == sep {
        assert Split(s, sep) == [""] + rest;
        assert Join([""] + rest, sep) == "" + [sep] + Join(rest, sep);
        assert s == [s[0]] + s[1..];
      } else {
        var parts := Split(s, sep);
        assert parts == [[s[0]] + rest[0]] + rest[1..];
        if |rest| == 1 {
          assert Join(parts, sep) == [s[0]] + rest[0];
        } else {
          assert Join(parts, sep) == [s[0]] + rest[0] + [sep] + Join(rest[1..], sep);
          assert Join(rest, sep) == rest[0] + [sep] + Join(rest[1..], sep);
        }
        assert s == [s[0]] + s[1..];
      }
    }
  }

  /** A string without the separator splits into itself alone. */
  lemma {:induction false} SplitNoSep(a: string, sep: char)
    requires sep !in a
    ensures Split(a, sep) == [a]
    decreases |a|
  {
    if |a| > 0 {
      SplitNoSep(a[1..], sep);
      assert a == [a[0]] + a[1..];
    }
  }

  /** A separator after a separator-free prefix cuts exactly there. */
  lemma {:induction false} SplitAtSep(a: string, b: string, sep: char)
    requires sep !in a
    ensures Split(a + [sep] + b, sep) == [a] + Split(b, sep)
    decreases |a|
  {
    var s := a + [sep] + b;
    if |a| == 0 {
      assert s[0] == sep && s[1..] == b;
    } else {
      assert s[0] == a[0] && s[1..] == a[1..] + [sep] + b;
      SplitAtSep(a[1..], b, sep);
      assert [a[0]] + a[1..] == a;
    }
  }

  /** Splitting a join of separator-free pieces recovers the pieces. */
  lemma {:induction false} SplitJoin(parts: seq<string>, sep: char)
    requires |parts| >= 1
    requires forall i :: 0 <= i < |parts| ==> sep !in parts[i]
    ensures Split(Join(parts, sep), sep) == parts
    decreases |parts|
  {
    if |parts| == 1 {
      SplitNoSep(parts[0], sep);
    } else {
      SplitJoin(parts[1..], sep);
      SplitAtSep(parts[0], Join(parts[1..], sep), sep);
      assert parts == [parts[0]] + parts[1..];
    }
  }

  predicate IsDigit(c: char) { '0' <= c <= '9' }

  /** The ASCII whitespace `int()` skips around a literal. */
  predicate IsSpace(c: char) {
    c == ' ' || c == '\t' || c == '\n' || c == '\r' || c == '\U{000B}' || c == '\U{000C}'
  }

  function StripLeft(s: string): (r: string)
    ensures |r| > 0 ==> !IsSpace(r[0])
    decreases |s|
  {
    if |s| > 0 && IsSpace(s[0]) then StripLeft(s[1..]) else s
  }

  function StripRight(s: string): (r: string)
    ensures |r| > 0 ==> !IsSpace(r[|r| - 1])
    decreases |s|
  {
    if |s| > 0 && IsSpace(s[|s| - 1]) then StripRight(s[..|s| - 1]) else s
  }

  function Strip(s: string): string {
    StripRight(StripLeft(s))
  }

  /** Value of a run of decimal digits, most significant first. */
  function DigitsValue(ds: string): nat
    requires forall i :: 0 <= i < |ds| ==> IsDigit(ds[i])
    decreases |ds|
  {
    if |ds| == 0 then 0
    else
      assert IsDigit(ds[|ds| - 1]);
      DigitsValue(ds[..|ds| - 1]) * 10 + (ds[|ds| - 1] as int - '0' as int)
  }

  function ParseDigits(ds: string): Option<nat> {
    if |ds| > 0 && forall i :: 0 <= i < |ds| ==> IsDigit(ds[i]) then Some(DigitsValue(ds))
    else None
  }

  /** `int(s)` on a string: surrounding whitespace, an optional sign and at
      least one decimal digit; anything else is the `ValueError` case. */
  function ParseInt(s: string): (r: Option<int>)
    ensures |Strip(s)| == 0 ==> r.None?
    ensures r.Some? ==> forall i :: 1 <= i < |Strip(s)| ==> IsDigit(Strip(s)[i])
    ensures r.Some? ==> |Strip(s)| > 0 && (IsDigit(Strip(s)[0]) || Strip(s)[0] == '-' || Strip(s)[0] == '+')
    ensures r.Some? && r.value < 0 ==> Strip(s)[0] == '-'
  {
    var t := Strip(s);
    if |t| > 0 && (t[0] == '-' || t[0] == '+') then
      match ParseDigits(t[1..])
      case None => None
      case Some(n) => Some(if t[0] == '-' then -(n as int) else n as int)
    else
      match ParseDigits(t)
      case None => None
      case Some(n) => Some(n)
  }

  /** `str(n)` for a non-negative integer. */
  function ShowNat(n: nat): (r: string)
    ensures |r| > 0
    ensures forall i :: 0 <= i < |r| ==> IsDigit(r[i])
  {
    var d := [('0' as int + n % 10) as char];
    if n < 10 then d else ShowNat(n / 10) + d
  }

  /** `str(i)` for any integer. */
  function ShowInt(i: int): string {
    if i < 0 then "-" + ShowNat(-i) else ShowNat(i)
  }

  lemma {:induction false} DigitsValueShowNat(n: nat)
    ensures DigitsValue(ShowNat(n)) == n
  {
    var s := ShowNat(n);
    if n >= 10 {
      DigitsValueShowNat(n / 10);
      assert s[..|s| - 1] == ShowNat(n / 10);
    }
  }

  lemma StripNoSpace(s: string)
    requires |s| > 0 && !IsSpace(s[0]) && !IsSpace(s[|s| - 1])
    ensures Strip(s) == s
  {
  }

  /** `int(str(i)) == i`. */
  lemma ParseShowInt(i: int)
    ensures ParseInt(ShowInt(i)) == Some(i)
  {
    var s := ShowInt(i);
    var m: nat := if i < 0 then -i else i;
    var digits := ShowNat(m);
    DigitsValueShowNat(m);
    assert !IsSpace(digits[0]) && !IsSpace(digits[|digits| - 1]);
    StripNoSpace(s);
    if i < 0 {
      assert s[1..] == digits;
    }
  }

  /** `int()` accepts surrounding whitespace and a sign. */
  lemma ParseIntAccepts()
    ensures ParseInt(" 7\n") == Some(7)
    ensures ParseInt("-12") == Some(-12)
    ensures ParseInt("+3") == Some(3)
  {
    assert StripLeft(" 7\n") == "7\n";
    assert StripRight("7\n") == "7";
    assert Strip("-12") == "-12";
    assert Strip("+3") == "+3";
  }

  /** `int()` rejects an empty or blank string, a lone sign and a decimal point. */
  lemma ParseIntRejects()
    ensures ParseInt("") == None && ParseInt(" ") == None
    ensures ParseInt("+") == None && ParseInt("1.5") == None
  {
    assert Strip(" ") == "";
    assert Strip("+") == "+";
    assert Strip("1.5") == "1.5" && !IsDigit("1.5"[1]);
  }

  /** `list(map(int, s.split(",")))`; `None` when some piece is not an integer. */
  function ParseIntList(s: string): Option<seq<int>> {
    ParseAll(Split(s, ','))
  }

  function ParseAll(pieces: seq<string>): (r: Option<seq<int>>)
    ensures r.Some? <==> forall i :: 0 <= i < |pieces| ==> ParseInt(pieces[i]).Some?
    ensures r.Some? ==> |r.value| == |pieces|
    ensures r.Some? ==> forall i :: 0 <= i < |pieces| ==> ParseInt(pieces[i]) == Some(r.value[i])
    decreases |pieces|
  {
    if |pieces| == 0 then Some([])
    else
      match ParseInt(pieces[0])
      case None => None
      case Some(v) =>
        match ParseAll(pieces[1..])
        case None => None
        case Some(vs) => Some([v] + vs)
  }

  function ShowAll(xs: seq<int>): (r: seq<string>)
    ensures |r| == |xs|
    ensures forall i :: 0 <= i < |xs| ==> r[i] == ShowInt(xs[i])
  {
    if |xs| == 0 then [] else [ShowInt(xs[0])] + ShowAll(xs[1..])
  }

  lemma ShowIntNoComma(i: int)
    ensures ',' !in ShowInt(i)
  {
  }

  lemma {:induction false} ParseAllShowAll(xs: seq<int>)
    ensures ParseAll(ShowAll(xs)) == Some(xs)
    decreases |xs|
  {
    if |xs| > 0 {
      ParseShowInt(xs[0]);
      ParseAllShowAll(xs[1..]);
      assert ShowAll(xs)[1..] == ShowAll(xs[1..]);
      assert [xs[0]] + xs[1..] == xs;
    }
  }

  /** Writing integers as a comma-separated list and parsing it back is the identity. */
  lemma ParseShowIntList(xs: seq<int>)
    requires |xs| >= 1
    ensures ParseIntList(Join(ShowAll(xs), ',')) == Some(xs)
  {
    var pieces := ShowAll(xs);
    forall i | 0 <= i < |pieces|
      ensures ',' !in pieces[i]
    {
      ShowIntNoComma(xs[i]);
    }
    SplitJoin(pieces, ',');
    ParseAllShowAll(xs);
  }
}
