/** The handful of Python string operations the tester's formatting code uses:
    slicing (which clamps out-of-range bounds instead of failing), repetition,
    `str.split` on one separator character and `str.format` with one
    positional argument. */
module PyText {

  datatype Option<T> = None | Some(value: T)

  /** `c * n`: the character `c` repeated `n` times. */
  function Repeat(c: char, n: nat): (r: string)
    ensures |r| == n
    ensures forall i :: 0 <= i < n ==> r[i] == c
  {
    if n == 0 then [] else Repeat(c, n - 1) + [c]
  }

  /** `s[:n]`: the first `n` characters, or all of `s` when it is shorter. */
  function Take(s: string, n: nat): (r: string)
    ensures |r| == (if n <= |s| then n else |s|)
    ensures r <= s
  {
    if n <= |s| then s[..n] else s
  }

  /** `s[-n:]` for a positive `n`: the last `n` characters, or all of `s`
      when it is shorter. For `n == 0` this gives the empty suffix, unlike
      Python, where `s[-0:]` is all of `s`; the tester only slices with
      `n == 3`. */
  function TakeLast(s: string, n: nat): (r: string)
    ensures |r| == (if n <= |s| then n else |s|)
    ensures r == s[|s| - |r|..]
  {
    if n <= |s| then s[|s| - n..] else s
  }

  /** The last `n` characters of a string with one more character at its
      end: the last `n - 1` of the string, then that character. */
  lemma TakeLastAppend(s: string, c: char, n: nat)
    requires 0 < n <= |s| + 1
    ensures TakeLast(s + [c], n) == TakeLast(s, n - 1) + [c]
  {
    assert (s + [c])[|s| + 1 - n..] == s[|s| - (n - 1)..] + [c];
  }

  /** `s.split(sep)` for a one-character separator: the pieces between the
      occurrences of `sep`, always at least one (possibly empty) piece. */
  function Split(s: string, sep: char): (parts: seq<string>)
    ensures |parts| >= 1
    ensures forall k :: 0 <= k < |parts| ==> sep !in parts[k]
  {
    if s == [] then [""]
    else
      var rest := Split(s[1..], sep);
      if s[0] == sep then [""] + rest
      else
        assert sep !in rest[0];
        assert forall k :: 1 <= k < |rest| ==> sep !in rest[k];
        [[s[0]] + rest[0]] + rest[1..]
  }

  /** `sep.join(parts)`, the inverse of `Split`. */
  function Join(parts: seq<string>, sep: char): (s: string)
    requires |parts| >= 1
    ensures |s| >= |parts| - 1
  {
    if |parts| == 1 then parts[0] else parts[0] + [sep] + Join(parts[1..], sep)
  }

  /** Splitting loses nothing: joining the pieces back gives the original. */
  lemma {:induction false} JoinSplit(s: string, sep: char)
    ensures Join(Split(s, sep), sep) == s
  {
    if s != [] {
      JoinSplit(s[1..], sep);
      var rest := Split(s[1..], sep);
      if s[0] != sep {
        if |rest| == 1 {
          assert Join(Split(s, sep), sep) == [s[0]] + rest[0];
        } else {
          assert ([[s[0]] + rest[0]] + rest[1..])[1..] == rest[1..];
        }
      } else {
        assert ([""] + rest)[1..] == rest;
      }
    }
  }

  /** A string with no separator is one piece. */
  lemma {:induction false} SplitNoSep(a: string, sep: char)
    requires sep !in a
    ensures Split(a, sep) == [a]
  {
    if a != [] {
      SplitNoSep(a[1..], sep);
      assert [a[0]] + a[1..] == a;
    }
  }

  /** A separator between two separator-free strings yields exactly those
      two pieces. */
  lemma {:induction false} SplitAround(a: string, b: string, sep: char)
    requires sep !in a && sep !in b
    ensures Split(a + [sep] + b, sep) == [a, b]
  {
    if a == [] {
      SplitNoSep(b, sep);
      assert (a + [sep] + b)[1..] == b;
    } else {
      SplitAround(a[1..], b, sep);
      assert (a + [sep] + b)[1..] == a[1..] + [sep] + b;
      assert [a[0]] + a[1..] == a;
    }
  }

  /** No brace characters at all, so `str.format` copies the text as is. */
  predicate NoBraces(s: string)
  {
    forall i :: 0 <= i < |s| ==> s[i] != '{' && s[i] != '}'
  }

  /** `template.format(arg)` for templates that use automatically numbered
      `{}` fields and the `{{` / `}}` escapes. `used` records whether the
      single argument has already been consumed. `None` stands for the
      exception Python raises: a second `{}` has no argument left
      (IndexError), and a lone `{` or `}` is malformed (ValueError). A
      brace-free template is copied unchanged, and a successful format is no
      longer than the template plus one copy of the argument, since each
      escape shrinks and the one field is filled at most once. */
  function Format(template: string, arg: string, used: bool): (r: Option<string>)
    ensures NoBraces(template) ==> r == Some(template)
    ensures r.Some? ==> |r.value| <= |template| + (if used then 0 else |arg|)
    decreases |template|
  {
    if template == [] then Some([])
    else if |template| >= 2 && template[..2] == "{{" then
      assert template[0] == template[..2][0];
      Prepend("{", Format(template[2..], arg, used))
    else if |template| >= 2 && template[..2] == "}}" then
      Prepend("}", Format(template[2..], arg, used))
    else if |template| >= 2 && template[..2] == "{}" then
      if used then None else Prepend(arg, Format(template[2..], arg, true))
    else if template[0] == '{' || template[0] == '}' then None
    else
      assert NoBraces(template) ==> NoBraces(template[1..]) by {
        if NoBraces(template) {
          forall i | 0 <= i < |template[1..]|
            ensures template[1..][i] != '{' && template[1..][i] != '}'
          {
            assert template[1..][i] == template[i + 1];
          }
        }
      }
      assert [template[0]] + template[1..] == template;
      Prepend([template[0]], Format(template[1..], arg, used))
  }

  /** A character that is not a brace is copied, and formatting goes on
      with the rest of the template. */
  lemma FormatPlainStep(t: string, arg: string, used: bool)
    requires t != [] && t[0] != '{' && t[0] != '}'
    ensures Format(t, arg, used) == Prepend([t[0]], Format(t[1..], arg, used))
  {
    if |t| >= 2 {
      assert t[..2][0] == t[0];
    }
  }

  function Prepend(s: string, r: Option<string>): Option<string>
  {
    match r
    case None => None
    case Some(t) => Some(s + t)
  }

  /** A brace-free literal is copied as it stands and leaves the rest of
      the template, and whether the argument is used, to what follows it. */
  lemma {:induction false} FormatLiteral(lit: string, rest: string, arg: string, used: bool)
    requires NoBraces(lit)
    ensures Format(lit + rest, arg, used) == Prepend(lit, Format(rest, arg, used))
  {
    if lit == [] {
      assert lit + rest == rest;
      PrependNothing(Format(rest, arg, used));
    } else {
      var t := lit + rest;
      assert t[0] == lit[0] && t[1..] == lit[1..] + rest;
      FormatPlainStep(t, arg, used);
      assert NoBraces(lit[1..]) by {
        forall i | 0 <= i < |lit[1..]| ensures lit[1..][i] != '{' && lit[1..][i] != '}' {
          assert lit[1..][i] == lit[i + 1];
        }
      }
      FormatLiteral(lit[1..], rest, arg, used);
      PrependTwice([lit[0]], lit[1..], Format(rest, arg, used));
      assert [lit[0]] + lit[1..] == lit;
    }
  }

  lemma PrependNothing(r: Option<string>)
    ensures Prepend([], r) == r
  {
    if r.Some? {
      assert [] + r.value == r.value;
    }
  }

  lemma PrependTwice(a: string, b: string, r: Option<string>)
    ensures Prepend(a, Prepend(b, r)) == Prepend(a + b, r)
  {
    if r.Some? {
      assert a + (b + r.value) == (a + b) + r.value;
    }
  }

  /** A brace-free literal followed by one `{}` field formats to the literal
      followed by the argument. */
  lemma FormatLiteralThenField(lit: string, arg: string)
    requires NoBraces(lit)
    ensures Format(lit + "{}", arg, false) == Some(lit + arg)
  {
    FormatLiteral(lit, "{}", arg, false);
    var t := "{}";
    assert t[..2] == "{}" && t[2..] == [];
    assert t[..2] != "{{" && t[..2] != "}}" by {
      assert t[1] == '}' && t[0] == '{';
    }
    assert Format(t, arg, false) == Some(arg + []);
    assert arg + [] == arg;
  }

  /** A template that ends in a single brace after brace-free text is
      malformed: Python raises ValueError. */
  lemma FormatStrayBrace(lit: string, brace: char, arg: string, used: bool)
    requires NoBraces(lit) && (brace == '{' || brace == '}')
    ensures Format(lit + [brace], arg, used) == None
  {
    FormatLiteral(lit, [brace], arg, used);
  }

  /** A `{}` field after the argument was consumed has nothing to fill it:
      Python raises IndexError. */
  lemma FormatSecondField(lit: string, arg: string)
    requires NoBraces(lit)
    ensures Format(lit + "{}{}", arg, false) == None
  {
    FormatLiteral(lit, "{}{}", arg, false);
    var t := "{}{}";
    assert t[..2] == "{}" && t[2..] == "{}";
    assert t[..2] != "{{" && t[..2] != "}}" by {
      assert t[1] == '}' && t[0] == '{';
    }
    var u := t[2..];
    assert u[..2] == "{}" && u[..2] != "{{" && u[..2] != "}}" by {
      assert u[1] == '}' && u[0] == '{';
    }
  }
}
