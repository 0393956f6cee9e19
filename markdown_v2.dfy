/**
  Escaping of dynamic text for Telegram's "MarkdownV2" parse mode
  (`escapeMarkdownV2` in cloudflare-worker/src/index.js).

  The worker puts a backslash in front of every character of a fixed reserved
  set, one match at a time, and leaves every other character alone. `Unescape`
  is the reading side: it turns well-escaped plain text back into the text it
  stands for and fails on a reserved character that is not escaped.
*/
module MarkdownV2 {

  import opened Options

  /** The nineteen characters of the worker's regular-expression class, in its order. */
  predicate IsReserved(c: char) {
    || c == '_' || c == '*' || c == '[' || c == ']' || c == '(' || c == ')' || c == '~'
    || c == '`' || c == '>' || c == '#' || c == '+' || c == '-' || c == '=' || c == '|'
    || c == '{' || c == '}' || c == '.' || c == '!' || c == '\\'
  }

  /** What one input character becomes in the output. */
  function EscapeChar(c: char): seq<char> {
    if IsReserved(c) then ['\\', c] else [c]
  }

  /** Number of reserved characters in `s`. */
  function CountReserved(s: seq<char>): nat {
    if s == [] then 0 else (if IsReserved(s[0]) then 1 else 0) + CountReserved(s[1..])
  }

  predicate NoReserved(s: seq<char>) {
    forall i :: 0 <= i < |s| ==> !IsReserved(s[i])
  }

  /**
    `escapeMarkdownV2`: a global replace whose pattern matches one reserved
    character at a time, so the text is rewritten character by character.
  */
  function Escape(s: seq<char>): (r: seq<char>)
    ensures |r| == |s| + CountReserved(s)
    ensures |s| <= |r| <= 2 * |s|
  {
    if s == [] then [] else EscapeChar(s[0]) + Escape(s[1..])
  }

  /**
    A strict reading of MarkdownV2 plain text: a backslash before a reserved
    character stands for that character; a reserved character without one (a
    lone backslash included) is a parse error, and so is a backslash before a
    character that is not reserved.
  */
  function Unescape(r: seq<char>): Option<seq<char>>
    decreases |r|
  {
    if r == [] then Some([])
    else if r[0] == '\\' && |r| >= 2 && IsReserved(r[1]) then
      match Unescape(r[2..])
      case None => None
      case Some(t) => Some([r[1]] + t)
    else if IsReserved(r[0]) then None
    else
      match Unescape(r[1..])
      case None => None
      case Some(t) => Some([r[0]] + t)
  }

  /** Escaping works character by character, so it distributes over concatenation. */
  lemma {:induction false} EscapeAppend(a: seq<char>, b: seq<char>)
    ensures Escape(a + b) == Escape(a) + Escape(b)
  {
    if a == [] {
      assert a + b == b;
    } else {
      assert (a + b)[0] == a[0];
      assert (a + b)[1..] == a[1..] + b;
      EscapeAppend(a[1..], b);
    }
  }

  /**
    The character at position i is emitted, in order, as a backslash followed by
    itself when it is reserved and unchanged otherwise.
  */
  lemma {:induction false} EscapeAt(s: seq<char>, i: nat)
    requires i < |s|
    ensures Escape(s) == Escape(s[..i]) + EscapeChar(s[i]) + Escape(s[i + 1..])
  {
    var tail := [s[i]] + s[i + 1..];
    assert s == s[..i] + tail;
    EscapeAppend(s[..i], tail);
    assert tail[0] == s[i] && tail[1..] == s[i + 1..];
    assert Escape(tail) == EscapeChar(s[i]) + Escape(s[i + 1..]);
    assert Escape(s) == Escape(s[..i]) + (EscapeChar(s[i]) + Escape(s[i + 1..]));
  }

  lemma {:induction false} CountReservedZero(s: seq<char>)
    ensures CountReserved(s) == 0 <==> NoReserved(s)
  {
    if s != [] {
      CountReservedZero(s[1..]);
      if NoReserved(s[1..]) && !IsReserved(s[0]) {
        forall i | 0 <= i < |s| ensures !IsReserved(s[i]) {
          if i > 0 { assert s[i] == s[1..][i - 1]; }
        }
      }
      if NoReserved(s) {
        forall i | 0 <= i < |s| - 1 ensures !IsReserved(s[1..][i]) {
          assert s[1..][i] == s[i + 1];
        }
      }
    }
  }

  lemma {:induction false} EscapeNoReserved(s: seq<char>)
    requires NoReserved(s)
    ensures Escape(s) == s
  {
    if s != [] {
      assert !IsReserved(s[0]);
      assert NoReserved(s[1..]) by {
        forall i | 0 <= i < |s| - 1 ensures !IsReserved(s[1..][i]) {
          assert s[1..][i] == s[i + 1];
        }
      }
      EscapeNoReserved(s[1..]);
    }
  }

  /** A string is returned unchanged exactly when it has no reserved character. */
  lemma EscapeUnchangedIff(s: seq<char>)
    ensures Escape(s) == s <==> NoReserved(s)
  {
    CountReservedZero(s);
    if NoReserved(s) {
      EscapeNoReserved(s);
    }
  }

  /** Reading the escaped text gives back the original: the escaping loses nothing. */
  lemma {:induction false} UnescapeEscape(s: seq<char>)
    ensures Unescape(Escape(s)) == Some(s)
  {
    if s != [] {
      var rest := Escape(s[1..]);
      UnescapeEscape(s[1..]);
      if IsReserved(s[0]) {
        assert Escape(s) == ['\\', s[0]] + rest;
        assert (['\\', s[0]] + rest)[2..] == rest;
      } else {
        assert Escape(s) == [s[0]] + rest;
        assert ([s[0]] + rest)[1..] == rest;
      }
      assert [s[0]] + s[1..] == s;
    }
  }

  /** Conversely, every well-escaped text is the escaping of what it reads as. */
  lemma {:induction false} EscapeUnescape(r: seq<char>, s: seq<char>)
    requires Unescape(r) == Some(s)
    ensures Escape(s) == r
    decreases |r|
  {
    if r != [] {
      if r[0] == '\\' && |r| >= 2 && IsReserved(r[1]) {
        var t := Unescape(r[2..]).value;
        EscapeUnescape(r[2..], t);
        assert s == [r[1]] + t;
        assert s[1..] == t;
        assert r == ['\\', r[1]] + r[2..];
      } else {
        var t := Unescape(r[1..]).value;
        EscapeUnescape(r[1..], t);
        assert s == [r[0]] + t;
        assert s[1..] == t;
        assert r == [r[0]] + r[1..];
      }
    }
  }

  /** Text without reserved characters reads as itself. */
  lemma UnescapePlain(s: seq<char>)
    requires NoReserved(s)
    ensures Unescape(s) == Some(s)
  {
    EscapeNoReserved(s);
    UnescapeEscape(s);
  }

  /** Different texts escape differently. */
  lemma EscapeInjective(a: seq<char>, b: seq<char>)
    requires Escape(a) == Escape(b)
    ensures a == b
  {
    UnescapeEscape(a);
    UnescapeEscape(b);
  }

  /** A backslash before a reserved character reads as that character. */
  lemma UnescapeEscaped(c: char)
    requires IsReserved(c)
    ensures Unescape(['\\', c]) == Some([c])
  {
    assert Escape([c]) == ['\\', c];
    UnescapeEscape([c]);
  }

  /** Well-escaped pieces stay well-escaped when put side by side. */
  lemma UnescapeAppend(a: seq<char>, b: seq<char>, x: seq<char>, y: seq<char>)
    requires Unescape(a) == Some(x) && Unescape(b) == Some(y)
    ensures Unescape(a + b) == Some(x + y)
  {
    EscapeUnescape(a, x);
    EscapeUnescape(b, y);
    EscapeAppend(x, y);
    UnescapeEscape(x + y);
  }

  /** A reserved character at the end of escaped text always has a backslash before it. */
  lemma EscapeEndsEscaped(s: seq<char>)
    ensures var r := Escape(s); |r| > 0 && IsReserved(r[|r| - 1]) ==> |r| >= 2 && r[|r| - 2] == '\\'
  {
    if s != [] {
      var n := |s| - 1;
      assert s == s[..n] + [s[n]];
      EscapeAppend(s[..n], [s[n]]);
      assert Escape([s[n]]) == EscapeChar(s[n]);
    }
  }

  /** So text that ends in an unescaped reserved character does not read at all. */
  lemma UnescapeUnescapedEnd(r: seq<char>)
    requires |r| > 0 && IsReserved(r[|r| - 1])
    requires |r| < 2 || r[|r| - 2] != '\\'
    ensures Unescape(r).None?
  {
    if Unescape(r).Some? {
      EscapeUnescape(r, Unescape(r).value);
      EscapeEndsEscaped(Unescape(r).value);
    }
  }
}
