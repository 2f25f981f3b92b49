/**
  The three java.lang.String operations the core relies on, for a one-character
  separator that is not a regular-expression metacharacter (',', ';', '=' here):

  - `Split(s, sep)` is `s.split(sep)`, i.e. `split` with limit 0: every piece between
    two separators is kept, except that trailing empty pieces are dropped, and a string
    that holds no separator at all comes back whole (so `"".split(",")` is `[""]`);
  - `IndexOf(s, sub)` is `s.indexOf(sub)`: the first occurrence, or -1;
  - `EndsWith(s, suffix)` is `s.endsWith(suffix)`.
*/
module JavaStrings {

  /** The pieces of `s` between successive occurrences of `sep`, empty ones included. */
  function Pieces(s: string, sep: char): (r: seq<string>)
    ensures |r| >= 1
  {
    if s == [] then [[]]
    else
      var rest := Pieces(s[1..], sep);
      if s[0] == sep then [[]] + rest
      else [[s[0]] + rest[0]] + rest[1..]
  }

  /** The pieces glued back together, one separator between neighbours. */
  function Join(ps: seq<string>, sep: char): string
  {
    if |ps| == 0 then []
    else if |ps| == 1 then ps[0]
    else ps[0] + [sep] + Join(ps[1..], sep)
  }

  /** `n` separators in a row. */
  function Repeat(sep: char, n: nat): string
  {
    if n == 0 then [] else Repeat(sep, n - 1) + [sep]
  }

  /** The number of occurrences of `c` in `s`. */
  function Count(s: string, c: char): nat
  {
    if s == [] then 0 else (if s[0] == c then 1 else 0) + Count(s[1..], c)
  }

  /** `ps` without its trailing empty strings. */
  function StripTrailingEmpty(ps: seq<string>): (r: seq<string>)
  {
    if |ps| > 0 && ps[|ps| - 1] == [] then StripTrailingEmpty(ps[..|ps| - 1]) else ps
  }

  /**
    `s.split(sep)` with Java's default limit 0: the leading pieces of `s`, in order, with
    only empty pieces dropped, and no token holding the separator.
  */
  function Split(s: string, sep: char): (r: seq<string>)
    ensures |r| <= |Pieces(s, sep)| && r == Pieces(s, sep)[..|r|]
    ensures forall i :: |r| <= i < |Pieces(s, sep)| ==> Pieces(s, sep)[i] == []
    ensures forall t :: t in r ==> sep !in t
  {
    PiecesAvoidSeparator(s, sep);
    StripTrailingEmptyShape(Pieces(s, sep));
    if sep !in s then
      PiecesPrefix(s, [], sep);
      assert s + [] == s;
      [s]
    else StripTrailingEmpty(Pieces(s, sep))
  }

  /** `s.endsWith(suffix)`. */
  function EndsWith(s: string, suffix: string): bool
  {
    |suffix| <= |s| && s[|s| - |suffix|..] == suffix
  }

  /** `sub` occurs in `s` starting at index `i`. */
  predicate OccursAt(s: string, sub: string, i: int)
  {
    0 <= i && i + |sub| <= |s| && s[i..i + |sub|] == sub
  }

  /** The first occurrence of `sub` in `s` at an index no smaller than `from`, or -1. */
  function IndexFrom(s: string, sub: string, from: nat): (r: int)
    ensures r == -1 || (from <= r && OccursAt(s, sub, r))
    ensures forall j :: from <= j && (r == -1 || j < r) ==> !OccursAt(s, sub, j)
    decreases |s| - from
  {
    if from + |sub| > |s| then -1
    else if s[from..from + |sub|] == sub then from
    else IndexFrom(s, sub, from + 1)
  }

  /** `s.indexOf(sub)`: -1 exactly when `sub` occurs nowhere in `s`. */
  function IndexOf(s: string, sub: string): (r: int)
    ensures r == -1 <==> forall j :: !OccursAt(s, sub, j)
    ensures r != -1 ==> OccursAt(s, sub, r) && forall j :: 0 <= j < r ==> !OccursAt(s, sub, j)
  {
    IndexFrom(s, sub, 0)
  }

  // ---------------------------------------------------------------------------
  // Pieces and Join are inverse to each other.
  // ---------------------------------------------------------------------------

  lemma JoinCons(x: string, ps: seq<string>, sep: char)
    requires |ps| >= 1
    ensures Join([x] + ps, sep) == x + [sep] + Join(ps, sep)
  {
    assert ([x] + ps)[1..] == ps;
  }

  lemma {:induction false} JoinExtendHead(c: char, ps: seq<string>, sep: char)
    requires |ps| >= 1
    ensures Join([[c] + ps[0]] + ps[1..], sep) == [c] + Join(ps, sep)
  {
    if |ps| == 1 {
      assert [[c] + ps[0]] + ps[1..] == [[c] + ps[0]];
    } else {
      JoinCons([c] + ps[0], ps[1..], sep);
      JoinCons(ps[0], ps[1..], sep);
      assert ps == [ps[0]] + ps[1..];
    }
  }

  /** Gluing the pieces back together gives the original string. */
  lemma {:induction false} JoinPieces(s: string, sep: char)
    ensures Join(Pieces(s, sep), sep) == s
  {
    if s != [] {
      var rest := Pieces(s[1..], sep);
      JoinPieces(s[1..], sep);
      if s[0] == sep {
        JoinCons([], rest, sep);
      } else {
        JoinExtendHead(s[0], rest, sep);
      }
      assert s == [s[0]] + s[1..];
    }
  }

  /** No piece holds the separator. */
  lemma {:induction false} PiecesAvoidSeparator(s: string, sep: char)
    ensures forall p :: p in Pieces(s, sep) ==> sep !in p
  {
    if s != [] {
      PiecesAvoidSeparator(s[1..], sep);
      var rest := Pieces(s[1..], sep);
      if s[0] != sep {
        assert rest[0] in rest;
        forall p | p in Pieces(s, sep) ensures sep !in p {
          if p != [s[0]] + rest[0] {
            assert p in rest[1..];
          }
        }
      }
    }
  }

  /** There is one more piece than there are separators. */
  lemma {:induction false} PiecesCount(s: string, sep: char)
    ensures |Pieces(s, sep)| == Count(s, sep) + 1
  {
    if s != [] {
      PiecesCount(s[1..], sep);
    }
  }

  /** Splitting `a + t` where `a` holds no separator: `a` is glued to the first piece of `t`. */
  lemma {:induction false} PiecesPrefix(a: string, t: string, sep: char)
    requires sep !in a
    ensures Pieces(a + t, sep) == [a + Pieces(t, sep)[0]] + Pieces(t, sep)[1..]
  {
    if a == [] {
      assert a + t == t;
      assert a + Pieces(t, sep)[0] == Pieces(t, sep)[0];
      assert Pieces(t, sep) == [Pieces(t, sep)[0]] + Pieces(t, sep)[1..];
    } else {
      PiecesPrefix(a[1..], t, sep);
      var p := Pieces(t, sep);
      assert (a + t)[1..] == a[1..] + t;
      assert (a + t)[0] == a[0] != sep;
      var rest := Pieces(a[1..] + t, sep);
      assert rest[0] == a[1..] + p[0];
      assert rest[1..] == p[1..];
      assert [a[0]] + (a[1..] + p[0]) == a + p[0];
    }
  }

  /** Splitting what Join built gives back the pieces it was built from. */
  lemma {:induction false} PiecesOfJoin(ps: seq<string>, sep: char)
    requires |ps| >= 1
    requires forall p :: p in ps ==> sep !in p
    ensures Pieces(Join(ps, sep), sep) == ps
  {
    if |ps| == 1 {
      PiecesPrefix(ps[0], [], sep);
      assert ps[0] + [] == ps[0];
    } else {
      assert ps[0] in ps;
      PiecesOfJoin(ps[1..], sep);
      var b := Join(ps[1..], sep);
      var t := [sep] + b;
      assert t[1..] == b;
      assert Pieces(t, sep) == [[]] + Pieces(b, sep);
      PiecesPrefix(ps[0], t, sep);
      assert ps[0] + [sep] + b == ps[0] + t;
      assert ps[0] + [] == ps[0];
      assert ps == [ps[0]] + ps[1..];
    }
  }

  // ---------------------------------------------------------------------------
  // What Split keeps and what it drops.
  // ---------------------------------------------------------------------------

  /** Stripping keeps a prefix and drops only empty strings, and what it keeps does not end empty. */
  lemma {:induction false} StripTrailingEmptyShape(ps: seq<string>)
    ensures var r := StripTrailingEmpty(ps);
      && |r| <= |ps|
      && r == ps[..|r|]
      && (forall i :: |r| <= i < |ps| ==> ps[i] == [])
      && (r != [] ==> r[|r| - 1] != [])
  {
    if |ps| > 0 && ps[|ps| - 1] == [] {
      StripTrailingEmptyShape(ps[..|ps| - 1]);
    }
  }

  /** A string that does not end in the separator has a non-empty last piece. */
  lemma {:induction false} LastPieceNonEmpty(s: string, sep: char)
    requires s != [] && s[|s| - 1] != sep
    ensures Pieces(s, sep)[|Pieces(s, sep)| - 1] != []
  {
    if |s| > 1 {
      assert s[1..][|s[1..]| - 1] == s[|s| - 1];
      LastPieceNonEmpty(s[1..], sep);
    }
  }

  /**
    Split with limit 0: its tokens hold no separator, are the leading pieces of the string
    in order, the pieces it drops are all empty, and its last token is not empty when the
    string had a separator.
  */
  lemma SplitTokens(s: string, sep: char)
    ensures var r := Split(s, sep);
      && |r| <= |Pieces(s, sep)|
      && (forall t :: t in r ==> sep !in t)
      && r == Pieces(s, sep)[..|r|]
      && (forall i :: |r| <= i < |Pieces(s, sep)| ==> Pieces(s, sep)[i] == [])
      && (sep in s && r != [] ==> r[|r| - 1] != [])
  {
    PiecesAvoidSeparator(s, sep);
    StripTrailingEmptyShape(Pieces(s, sep));
    if sep !in s {
      PiecesPrefix(s, [], sep);
      assert s + [] == s;
    }
  }

  /** Empty tokens in the middle are kept: a string not ending in the separator splits into all its pieces. */
  lemma SplitKeepsInnerEmptyTokens(s: string, sep: char)
    requires s != [] && s[|s| - 1] != sep
    ensures Split(s, sep) == Pieces(s, sep)
    ensures |Split(s, sep)| == Count(s, sep) + 1
  {
    PiecesCount(s, sep);
    if sep in s {
      LastPieceNonEmpty(s, sep);
    } else {
      PiecesPrefix(s, [], sep);
      assert s + [] == s;
    }
  }

  lemma {:induction false} JoinAppendEmpty(ps: seq<string>, sep: char)
    requires |ps| >= 1
    ensures Join(ps + [[]], sep) == Join(ps, sep) + [sep]
  {
    if |ps| == 1 {
      assert ps + [[]] == [ps[0]] + [[]];
      JoinCons(ps[0], [[]], sep);
    } else {
      JoinAppendEmpty(ps[1..], sep);
      assert ps + [[]] == [ps[0]] + (ps[1..] + [[]]);
      JoinCons(ps[0], ps[1..] + [[]], sep);
      JoinCons(ps[0], ps[1..], sep);
      assert ps == [ps[0]] + ps[1..];
    }
  }

  /** Gluing a prefix of pieces to `k` trailing empty pieces adds `k` separators. */
  lemma {:induction false} JoinTrailingEmpty(ps: seq<string>, k: nat, sep: char)
    requires |ps| >= 1
    ensures Join(ps + Blanks(k), sep) == Join(ps, sep) + Repeat(sep, k)
  {
    if k > 0 {
      JoinTrailingEmpty(ps, k - 1, sep);
      var qs := ps + Blanks(k - 1);
      assert ps + Blanks(k) == qs + [[]];
      JoinAppendEmpty(qs, sep);
    } else {
      assert ps + Blanks(0) == ps;
    }
  }

  /** `k` empty strings. */
  function Blanks(k: nat): (r: seq<string>)
    ensures |r| == k && forall i :: 0 <= i < k ==> r[i] == []
  {
    seq(k, _ => [])
  }

  /** A sequence whose entries from `n` on are empty is its first `n` entries followed by empties. */
  lemma PrefixThenEmpties(ps: seq<string>, n: nat)
    requires n <= |ps|
    requires forall i :: n <= i < |ps| ==> ps[i] == []
    ensures ps == ps[..n] + Blanks(|ps| - n)
  {
  }

  /**
    Nothing but separators is lost: the string is its tokens glued together followed by
    the separators that preceded the dropped empty pieces (all of the string when no
    token is left).
  */
  lemma SplitRebuilds(s: string, sep: char)
    ensures var r := Split(s, sep);
      var n := |Pieces(s, sep)|;
      && |r| <= n
      && if r == [] then s == Repeat(sep, n - 1)
         else s == Join(r, sep) + Repeat(sep, n - |r|)
  {
    if sep !in s {
      PiecesPrefix(s, [], sep);
      assert s + [] == s;
      assert Repeat(sep, 0) == [];
    } else {
      StripTrailingEmptyShape(Pieces(s, sep));
      if Split(s, sep) == [] {
        StrippedRebuildsEmpty(s, sep);
      } else {
        StrippedRebuilds(s, sep);
      }
    }
  }

  /** A string whose pieces are all empty is nothing but separators. */
  lemma StrippedRebuildsEmpty(s: string, sep: char)
    requires StripTrailingEmpty(Pieces(s, sep)) == []
    ensures s == Repeat(sep, |Pieces(s, sep)| - 1)
  {
    var ps := Pieces(s, sep);
    JoinPieces(s, sep);
    StripTrailingEmptyShape(ps);
    PrefixThenEmpties(ps, 1);
    JoinTrailingEmpty([[]], |ps| - 1, sep);
    assert Join([[]], sep) == [];
  }

  /** The tokens left after stripping, glued together, then the separators of the dropped pieces. */
  lemma StrippedRebuilds(s: string, sep: char)
    requires StripTrailingEmpty(Pieces(s, sep)) != []
    ensures var r := StripTrailingEmpty(Pieces(s, sep));
      && |r| <= |Pieces(s, sep)|
      && s == Join(r, sep) + Repeat(sep, |Pieces(s, sep)| - |r|)
  {
    var ps := Pieces(s, sep);
    var r := StripTrailingEmpty(ps);
    JoinPieces(s, sep);
    StripTrailingEmptyShape(ps);
    PrefixThenEmpties(ps, |r|);
    JoinTrailingEmpty(r, |ps| - |r|, sep);
  }

  /** `split` on ',': the empty string is one empty token; a lone separator gives no token. */
  lemma SplitExamplesEmpty()
    ensures Split("", ',') == [""]
    ensures Split(",", ',') == []
  {
    assert ","[1..] == "" && ","[0] == ',';
    assert Pieces(",", ',') == ["", ""];
    assert ["", ""][..1] == [""];
    assert [""][..0] == [];
  }

  /** `split` on ',' keeps an empty token between two separators. */
  lemma SplitExamplesInner()
    ensures Split("a,,b", ',') == ["a", "", "b"]
  {
    assert "b"[1..] == "" && "b"[0] == 'b' && ['b'] + "" == "b";
    assert Pieces("b", ',') == ["b"];
    assert ",b"[1..] == "b" && ",b"[0] == ',';
    assert Pieces(",b", ',') == ["", "b"];
    assert ",,b"[1..] == ",b" && ",,b"[0] == ',';
    assert Pieces(",,b", ',') == ["", "", "b"];
    assert "a,,b"[1..] == ",,b" && "a,,b"[0] == 'a' && ['a'] + "" == "a";
    assert Pieces("a,,b", ',') == ["a", "", "b"];
  }

  /** `split` on ',' drops the empty tokens at the end. */
  lemma SplitExamplesTrailing()
    ensures Split("a,b,,", ',') == ["a", "b"]
  {
    assert ","[1..] == "" && ","[0] == ',';
    assert Pieces(",", ',') == ["", ""];
    assert ",,"[1..] == "," && ",,"[0] == ',';
    assert Pieces(",,", ',') == ["", "", ""];
    assert "b,,"[1..] == ",," && "b,,"[0] == 'b' && ['b'] + "" == "b";
    assert Pieces("b,,", ',') == ["b", "", ""];
    assert ",b,,"[1..] == "b,," && ",b,,"[0] == ',';
    assert Pieces(",b,,", ',') == ["", "b", "", ""];
    assert "a,b,,"[1..] == ",b,," && "a,b,,"[0] == 'a' && ['a'] + "" == "a";
    assert Pieces("a,b,,", ',') == ["a", "b", "", ""];
    assert ["a", "b", "", ""][..3] == ["a", "b", ""];
    assert ["a", "b", ""][..2] == ["a", "b"];
  }

  /** A key/value token split on '=': "a=b=c" has part 1 "b"; "a" has no part 1. */
  lemma SplitExamplesPair()
    ensures Split("a=b=c", '=') == ["a", "b", "c"]
    ensures Split("a", '=') == ["a"]
  {
    assert "c"[1..] == "" && "c"[0] == 'c' && ['c'] + "" == "c";
    assert Pieces("c", '=') == ["c"];
    assert "=c"[1..] == "c" && "=c"[0] == '=';
    assert Pieces("=c", '=') == ["", "c"];
    assert "b=c"[1..] == "=c" && "b=c"[0] == 'b' && ['b'] + "" == "b";
    assert Pieces("b=c", '=') == ["b", "c"];
    assert "=b=c"[1..] == "b=c" && "=b=c"[0] == '=';
    assert Pieces("=b=c", '=') == ["", "b", "c"];
    assert "a=b=c"[1..] == "=b=c" && "a=b=c"[0] == 'a' && ['a'] + "" == "a";
    assert Pieces("a=b=c", '=') == ["a", "b", "c"];
    assert '=' !in "a";
  }

  /** "a=" has no part 1 (its trailing empty value is dropped); "=b" has an empty part 0. */
  lemma SplitExamplesMissingPart()
    ensures Split("a=", '=') == ["a"]
    ensures Split("=b", '=') == ["", "b"]
  {
    assert "="[1..] == "" && "="[0] == '=';
    assert Pieces("=", '=') == ["", ""];
    assert "a="[1..] == "=" && "a="[0] == 'a' && ['a'] + "" == "a";
    assert Pieces("a=", '=') == ["a", ""];
    assert ["a", ""][..1] == ["a"];
    assert "b"[1..] == "" && "b"[0] == 'b' && ['b'] + "" == "b";
    assert Pieces("b", '=') == ["b"];
    assert "=b"[1..] == "b" && "=b"[0] == '=';
    assert Pieces("=b", '=') == ["", "b"];
  }
}
