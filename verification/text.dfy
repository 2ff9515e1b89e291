/** The string operations the audit log is built from: `sep.join(parts)` and `s.splitlines()`,
    the latter restricted to "\n" as its only line boundary. `Split` is the splitting on one
    separator that defines `SplitLines` and states the round trips with `Join`. */
module Text {

  /** `sep.join(parts)` for a one-character separator. */
  function Join(parts: seq<string>, sep: char): string
    decreases |parts|
  {
    if |parts| == 0 then ""
    else if |parts| == 1 then parts[0]
    else parts[0] + [sep] + Join(parts[1..], sep)
  }

  /** The maximal separator-free pieces of `s`, as `s.split(sep)` would give them for a
      one-character separator; joined back with `sep` they give `s` again. */
  function Split(s: string, sep: char): (parts: seq<string>)
    ensures |parts| >= 1
    ensures forall i :: 0 <= i < |parts| ==> sep !in parts[i]
    ensures Join(parts, sep) == s
    decreases |s|
  {
    if |s| == 0 then [""]
    else
      var rest := Split(s[1..], sep);
      if s[0] == sep then
        assert [sep] + Join(rest, sep) == s;
        [""] + rest
      else
        var parts := [[s[0]] + rest[0]] + rest[1..];
        assert Join(parts, sep) == s by {
          if |rest| > 1 {
            assert Join(rest, sep) == rest[0] + [sep] + Join(rest[1..], sep);
            assert parts[1..] == rest[1..];
          }
        }
        parts
  }

  /** Splitting a separator-free prefix followed by more text: the prefix joins the first piece. */
  lemma {:induction false} SplitPrefix(a: string, t: string, sep: char)
    requires sep !in a
    ensures Split(a + t, sep) == [a + Split(t, sep)[0]] + Split(t, sep)[1..]
    decreases |a|
  {
    if |a| > 0 {
      assert (a + t)[1..] == a[1..] + t;
      assert (a + t)[0] == a[0] != sep;
      SplitPrefix(a[1..], t, sep);
      assert [a[0]] + (a[1..] + Split(t, sep)[0]) == a + Split(t, sep)[0];
    } else {
      var st := Split(t, sep);
      assert a + t == t;
      assert a + st[0] == st[0];
      assert [st[0]] + st[1..] == st;
    }
  }

  /** A text that starts with the separator splits into an empty piece, then the rest's pieces. */
  lemma SplitAfterSeparator(t: string, sep: char)
    ensures Split([sep] + t, sep) == [""] + Split(t, sep)
  {
    assert ([sep] + t)[1..] == t;
  }

  /** Joining separator-free pieces and splitting the result gives the pieces back. */
  lemma {:induction false} SplitJoin(parts: seq<string>, sep: char)
    requires |parts| >= 1
    requires forall i :: 0 <= i < |parts| ==> sep !in parts[i]
    ensures Split(Join(parts, sep), sep) == parts
    decreases |parts|
  {
    if |parts| == 1 {
      SplitPrefix(parts[0], "", sep);
      assert parts[0] + "" == parts[0];
    } else {
      SplitJoin(parts[1..], sep);
      SplitJoinStep(parts[0], parts[1..], sep);
      assert [parts[0]] + parts[1..] == parts;
    }
  }

  /** One step of `SplitJoin`: a separator-free piece put in front of text that splits into
      `rest`. */
  lemma SplitJoinStep(a: string, rest: seq<string>, sep: char)
    requires sep !in a
    requires |rest| >= 1
    requires Split(Join(rest, sep), sep) == rest
    ensures Split(Join([a] + rest, sep), sep) == [a] + rest
  {
    var tail := Join(rest, sep);
    assert Join([a] + rest, sep) == a + ([sep] + tail) by {
      assert ([a] + rest)[1..] == rest;
    }
    SplitAfterSeparator(tail, sep);
    SplitPrefix(a, [sep] + tail, sep);
    assert a + "" == a;
  }

  /** The joined text ends with the last character of the last piece. */
  lemma {:induction false} JoinEndsWithLast(parts: seq<string>, sep: char)
    requires |parts| >= 1
    requires parts[|parts| - 1] != ""
    ensures Join(parts, sep) != ""
    ensures Join(parts, sep)[|Join(parts, sep)| - 1] == parts[|parts| - 1][|parts[|parts| - 1]| - 1]
    decreases |parts|
  {
    if |parts| > 1 {
      JoinEndsWithLast(parts[1..], sep);
      var tail := Join(parts[1..], sep);
      assert Join(parts, sep) == (parts[0] + [sep]) + tail;
    }
  }

  /** `s.splitlines()`: the lines of `s`; a final "\n" ends the last line rather than starting
      an empty one, and the empty text has no line at all. */
  function SplitLines(s: string): (lines: seq<string>)
    ensures lines == [] <==> s == ""
    ensures forall i :: 0 <= i < |lines| ==> '\n' !in lines[i]
    ensures s != "" ==> Join(lines, '\n') == (if s[|s| - 1] == '\n' then s[..|s| - 1] else s)
  {
    if s == "" then []
    else if s[|s| - 1] == '\n' then Split(s[..|s| - 1], '\n')
    else Split(s, '\n')
  }

  /** Text written as "\n"-joined lines reads back as the same lines, provided no line holds
      a "\n" and the last line is not empty. */
  lemma SplitLinesJoin(lines: seq<string>)
    requires |lines| >= 1
    requires forall i :: 0 <= i < |lines| ==> '\n' !in lines[i]
    requires lines[|lines| - 1] != ""
    ensures SplitLines(Join(lines, '\n')) == lines
  {
    var s := Join(lines, '\n');
    var last := lines[|lines| - 1];
    JoinEndsWithLast(lines, '\n');
    assert last[|last| - 1] in last;
    SplitJoin(lines, '\n');
  }
}
