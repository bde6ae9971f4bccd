/** Python string operations the core relies on: `str.split`, `str.join`,
    the `in` test on strings and `str.strip`. */
module Text {

  /** `sep.join(parts)` for a one-character separator. */
  function Join(parts: seq<string>, sep: char): string
  {
    if |parts| == 0 then ""
    else if |parts| == 1 then parts[0]
    else parts[0] + [sep] + Join(parts[1..], sep)
  }

  /** `s.split(sep)`: the maximal separator-free pieces of `s`, empty ones included. */
  function Split(s: string, sep: char): (parts: seq<string>)
    ensures |parts| >= 1
    ensures forall i :: 0 <= i < |parts| ==> sep !in parts[i]
    ensures Join(parts, sep) == s
  {
    if s == [] then [""]
    else
      var rest := Split(s[1..], sep);
      if s[0] == sep then
        assert s == [sep] + s[1..];
        [""] + rest
      else
        var parts := [[s[0]] + rest[0]] + rest[1..];
        assert parts[1..] == rest[1..];
        assert s == [s[0]] + s[1..];
        parts
  }

  /** A string splits into one piece exactly when it has no separator. */
  lemma {:induction false} SplitSingle(s: string, sep: char)
    ensures |Split(s, sep)| == 1 <==> sep !in s
  {
    if s != [] {
      SplitSingle(s[1..], sep);
      assert s == [s[0]] + s[1..];
    }
  }

  /** Splitting a separator-free head together with a tail glues the head to
      the tail's first piece. */
  lemma {:induction false} SplitFreeHead(a: string, t: string, sep: char)
    requires sep !in a
    ensures Split(a + t, sep) == [a + Split(t, sep)[0]] + Split(t, sep)[1..]
  {
    if a != [] {
      assert (a + t)[1..] == a[1..] + t;
      assert (a + t)[0] == a[0];
      SplitFreeHead(a[1..], t, sep);
      assert [a[0]] + (a[1..] + Split(t, sep)[0]) == a + Split(t, sep)[0];
    } else {
      assert a + t == t;
      assert a + Split(t, sep)[0] == Split(t, sep)[0];
      assert Split(t, sep) == [Split(t, sep)[0]] + Split(t, sep)[1..];
    }
  }

  /** Splitting undoes joining whenever no piece holds the separator. */
  lemma {:induction false} SplitJoin(parts: seq<string>, sep: char)
    requires |parts| >= 1
    requires forall i :: 0 <= i < |parts| ==> sep !in parts[i]
    ensures Split(Join(parts, sep), sep) == parts
  {
    if |parts| == 1 {
      SplitFreeHead(parts[0], "", sep);
      assert parts[0] + "" == parts[0];
    } else {
      var tail := Join(parts[1..], sep);
      SplitJoin(parts[1..], sep);
      assert Split([sep] + tail, sep) == [""] + Split(tail, sep) by {
        assert ([sep] + tail)[1..] == tail;
      }
      assert parts[0] + [sep] + tail == parts[0] + ([sep] + tail);
      SplitFreeHead(parts[0], [sep] + tail, sep);
      assert parts[0] + "" == parts[0];
      assert [parts[0]] + parts[1..] == parts;
    }
  }

  /** `pattern` occurs in `text` starting at index `i`. */
  predicate OccursAt(text: string, pattern: string, i: int)
  {
    0 <= i <= |text| - |pattern| && text[i..i + |pattern|] == pattern
  }

  /** `pattern in text` for strings. */
  predicate Contains(text: string, pattern: string)
  {
    exists i :: 0 <= i <= |text| && OccursAt(text, pattern, i)
  }

  /** Python's `str.isspace` on the ASCII range: space, tab, line feed,
      vertical tab, form feed, carriage return and the separators 0x1c-0x1f. */
  predicate IsSpace(c: char)
  {
    c == ' ' || (9 <= c as int <= 13) || (28 <= c as int <= 31)
  }

  function TrimStart(s: string): (r: string)
    ensures |r| <= |s| && r == s[|s| - |r|..]
    ensures forall k :: 0 <= k < |s| - |r| ==> IsSpace(s[k])
    ensures r == [] || !IsSpace(r[0])
  {
    if s != [] && IsSpace(s[0]) then TrimStart(s[1..]) else s
  }

  function TrimEnd(s: string): (r: string)
    ensures |r| <= |s| && r == s[..|r|]
    ensures forall k :: |r| <= k < |s| ==> IsSpace(s[k])
    ensures r == [] || !IsSpace(r[|r| - 1])
  {
    if s != [] && IsSpace(s[|s| - 1]) then TrimEnd(s[..|s| - 1]) else s
  }

  /** `r` is `s[i..]` cut to `|r|` characters, with only whitespace around it in `s`. */
  predicate Framed(s: string, r: string, i: int)
  {
    0 <= i <= |s| - |r| && s[i..i + |r|] == r &&
    (forall k :: 0 <= k < i ==> IsSpace(s[k])) &&
    (forall k :: i + |r| <= k < |s| ==> IsSpace(s[k]))
  }

  /** Cutting leading whitespace off `s` to get `t`, then trailing
      whitespace off `t` to get `r`, leaves `r` framed in `s`. */
  lemma {:induction false} StripFramed(s: string, t: string, r: string)
    requires |t| <= |s| && t == s[|s| - |t|..] && forall k :: 0 <= k < |s| - |t| ==> IsSpace(s[k])
    requires |r| <= |t| && r == t[..|r|] && forall k :: |r| <= k < |t| ==> IsSpace(t[k])
    ensures Framed(s, r, |s| - |t|)
  {
    var i := |s| - |t|;
    forall k | 0 <= k < |r| ensures s[i..i + |r|][k] == r[k] {
      assert r[k] == t[k] == s[i + k];
    }
    forall k | i + |r| <= k < |s| ensures IsSpace(s[k]) {
      assert s[k] == t[k - i];
    }
  }

  /** `s.strip()`: `s` without its leading and trailing whitespace. */
  function Strip(s: string): (r: string)
    ensures exists i :: 0 <= i <= |s| && Framed(s, r, i)
    ensures r == [] || (!IsSpace(r[0]) && !IsSpace(r[|r| - 1]))
  {
    var t := TrimStart(s);
    var r := TrimEnd(t);
    StripFramed(s, t, r);
    assert r != [] ==> r[0] == t[0];
    r
  }
}
