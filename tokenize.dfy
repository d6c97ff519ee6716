/** `strtok` and `string_split` (source/bunker.c): cutting a C string into
    the pieces between delimiter characters. */
module Tokenize {
  import opened Outcomes

  /** No character of `s` is a delimiter. */
  predicate DelimFree(s: string, delim: string) {
    forall i :: 0 <= i < |s| ==> s[i] !in delim
  }

  /** Every character of `s` is a delimiter (vacuously so for ""). */
  predicate AllDelims(s: string, delim: string) {
    forall i :: 0 <= i < |s| ==> s[i] in delim
  }

  /** A string without the character `c` is free of the delimiter set `[c]`. */
  lemma DelimFreeOfAbsent(s: string, c: char)
    requires c !in s
    ensures DelimFree(s, [c])
  {
  }

  /** Freedom from two delimiter sets is freedom from their union. */
  lemma DelimFreeOfUnion(s: string, d1: string, d2: string)
    requires DelimFree(s, d1) && DelimFree(s, d2)
    ensures DelimFree(s, d1 + d2)
  {
  }

  /** A token cut off the front of the buffer, and where the next call resumes. */
  datatype Cut = Cut(token: string, rest: string)

  /** Take characters up to the first delimiter; the delimiter itself is
      overwritten by the terminator, so reading resumes after it. */
  function TakeToken(s: string, delim: string): (c: Cut)
    ensures DelimFree(c.token, delim)
    ensures |c.token| + |c.rest| <= |s|
    ensures s != [] && s[0] !in delim ==> c.token != []
  {
    if s == [] then Cut([], [])
    else if s[0] in delim then Cut([], s[1..])
    else
      var c := TakeToken(s[1..], delim);
      Cut([s[0]] + c.token, c.rest)
  }

  /** Where the cut falls: the token is the longest delimiter-free prefix of
      `s`, and the rest resumes just after the delimiter that ends it (or is
      empty when the token runs to the end). */
  lemma {:induction false} TakeTokenCuts(s: string, delim: string)
    ensures var c := TakeToken(s, delim);
      && c.token == s[..|c.token|]
      && (|c.token| < |s| ==> s[|c.token|] in delim && c.rest == s[|c.token| + 1..])
      && (|c.token| == |s| ==> c.rest == [])
  {
    if s != [] && s[0] !in delim {
      TakeTokenCuts(s[1..], delim);
    }
  }

  /** One call of `strtok` on the unread part of its buffer: skip the
      delimiters, then take the token. `None` is the NULL `strtok` returns
      when only delimiters are left. */
  function Strtok(s: string, delim: string): (r: Option<Cut>)
    ensures r.None? <==> AllDelims(s, delim)
    ensures r.Some? ==> r.value.token != [] && DelimFree(r.value.token, delim)
    ensures r.Some? ==> |r.value.rest| < |s|
  {
    if s == [] then None
    else if s[0] in delim then
      var r := Strtok(s[1..], delim);
      assert AllDelims(s, delim) <==> AllDelims(s[1..], delim) by {
        if AllDelims(s[1..], delim) {
          forall i | 0 <= i < |s| ensures s[i] in delim {
            if i > 0 { assert s[i] == s[1..][i - 1]; }
          }
        }
      }
      r
    else Some(TakeToken(s, delim))
  }

  /** The tokens successive `strtok` calls return on `s`, in order. */
  function Tokens(s: string, delim: string): (r: seq<string>)
    ensures r == [] <==> AllDelims(s, delim)
    decreases |s|
  {
    match Strtok(s, delim)
    case None => []
    case Some(cut) => [cut.token] + Tokens(cut.rest, delim)
  }

  /** Reference reading: `s` cut at EVERY delimiter character, keeping the
      empty fields between adjacent delimiters. */
  function Fields(s: string, delim: string): (r: seq<string>)
    ensures r != []
    ensures forall i :: 0 <= i < |r| ==> DelimFree(r[i], delim)
  {
    if s == [] then [[]]
    else
      var f := Fields(s[1..], delim);
      if s[0] in delim then [[]] + f
      else
        assert DelimFree(f[0], delim);
        [[s[0]] + f[0]] + f[1..]
  }

  /** The non-empty strings of `fs`, in order. */
  function NonEmpty(fs: seq<string>): (r: seq<string>)
    ensures |r| <= |fs|
    ensures forall i :: 0 <= i < |r| ==> r[i] != [] && r[i] in fs
  {
    if fs == [] then []
    else (if fs[0] == [] then [] else [fs[0]]) + NonEmpty(fs[1..])
  }

  lemma {:induction false} FieldsOfTake(s: string, delim: string)
    ensures Fields(s, delim)[0] == TakeToken(s, delim).token
    ensures NonEmpty(Fields(s, delim)[1..]) == NonEmpty(Fields(TakeToken(s, delim).rest, delim))
  {
    if s == [] {
      assert Fields(s, delim)[1..] == [];
      assert NonEmpty(Fields([], delim)) == [] + NonEmpty([]);
    } else if s[0] in delim {
      assert Fields(s, delim)[1..] == Fields(s[1..], delim);
    } else {
      FieldsOfTake(s[1..], delim);
      var f := Fields(s[1..], delim);
      assert Fields(s, delim)[1..] == f[1..];
    }
  }

  lemma {:induction false} FieldsOfToken(t: string, x: string, delim: string)
    requires DelimFree(t, delim)
    ensures Fields(t + x, delim) == [t + Fields(x, delim)[0]] + Fields(x, delim)[1..]
    decreases |t|
  {
    if t == [] {
      assert t + x == x;
      assert t + Fields(x, delim)[0] == Fields(x, delim)[0];
      assert Fields(x, delim) == [Fields(x, delim)[0]] + Fields(x, delim)[1..];
    } else {
      assert (t + x)[0] == t[0] && (t + x)[1..] == t[1..] + x;
      FieldsOfToken(t[1..], x, delim);
      assert [t[0]] + (t[1..] + Fields(x, delim)[0]) == t + Fields(x, delim)[0];
    }
  }

  /** The pieces `strtok` returns are exactly the non-empty fields between
      delimiters, in order: runs of delimiters collapse and empty pieces are
      dropped. */
  lemma {:induction false} TokensAreNonEmptyFields(s: string, delim: string)
    ensures Tokens(s, delim) == NonEmpty(Fields(s, delim))
    decreases |s|
  {
    if s == [] {
      assert NonEmpty([[]]) == [] + NonEmpty([]);
    } else if s[0] in delim {
      TokensAreNonEmptyFields(s[1..], delim);
      var f := Fields(s[1..], delim);
      assert ([[]] + f)[1..] == f;
    } else {
      var c := TakeToken(s, delim);
      FieldsOfTake(s, delim);
      TokensAreNonEmptyFields(c.rest, delim);
      var f := Fields(s, delim);
      assert f == [f[0]] + f[1..];
    }
  }

  /** Every piece is non-empty and free of delimiters. */
  lemma TokensAreDelimFree(s: string, delim: string)
    ensures forall i :: 0 <= i < |Tokens(s, delim)| ==> Tokens(s, delim)[i] != [] && DelimFree(Tokens(s, delim)[i], delim)
  {
    TokensAreNonEmptyFields(s, delim);
    var fs := Fields(s, delim);
    assert forall i :: 0 <= i < |NonEmpty(fs)| ==> NonEmpty(fs)[i] in fs;
  }

  /** Two delimiter-free pieces joined by one delimiter split back into
      exactly those two pieces. */
  lemma TokensOfPair(a: string, c: char, b: string, delim: string)
    requires a != [] && b != [] && DelimFree(a, delim) && DelimFree(b, delim) && c in delim
    ensures Tokens(a + [c] + b, delim) == [a, b]
  {
    var cb := [c] + b;
    assert a + [c] + b == a + cb;
    assert cb[0] == c && cb[1..] == b;
    assert Fields(cb, delim) == [[]] + Fields(b, delim);
    FieldsOfToken(b, [], delim);
    assert b + [] == b;
    assert Fields(b, delim) == [b];
    FieldsOfToken(a, cb, delim);
    assert a + [] == a;
    assert Fields(a + cb, delim) == [a, b];
    TokensAreNonEmptyFields(a + cb, delim);
    assert NonEmpty([a, b]) == [a] + NonEmpty([b]);
    assert NonEmpty([b]) == [b] + NonEmpty([]);
  }

  /** A non-empty delimiter-free string is its own single token. */
  lemma TokensOfSingle(a: string, delim: string)
    requires a != [] && DelimFree(a, delim)
    ensures Tokens(a, delim) == [a]
  {
    TokensAreNonEmptyFields(a, delim);
    FieldsOfToken(a, [], delim);
    assert a + [] == a;
    assert NonEmpty([a]) == [a] + NonEmpty([]);
  }

  /** string_split: duplicate `string`, cut it with `strtok` until it returns
      NULL, collecting one copy per token. Status 1 for a NULL argument, 2 when
      no token was found, 0 otherwise. */
  method StringSplit(s: Option<string>, delim: Option<string>) returns (status: nat, strings: seq<string>)
    ensures s.None? || delim.None? ==> status == 1 && strings == []
    ensures s.Some? && delim.Some? ==> strings == Tokens(s.value, delim.value)
    ensures s.Some? && delim.Some? ==> (status == 2 <==> AllDelims(s.value, delim.value))
    ensures s.Some? && delim.Some? ==> (status == 0 <==> !AllDelims(s.value, delim.value))
  {
    if s.None? || delim.None? {
      return 1, [];
    }
    var d := delim.value;
    var rest := s.value;
    var token := Strtok(rest, d);
    strings := [];
    while token.Some?
      invariant token == Strtok(rest, d)
      invariant strings + Tokens(rest, d) == Tokens(s.value, d)
      decreases |rest|
    {
      var cut := token.value;
      assert Tokens(rest, d) == [cut.token] + Tokens(cut.rest, d);
      strings := strings + [cut.token];
      rest := cut.rest;
      token := Strtok(rest, d);
    }
    assert strings == Tokens(s.value, d) by {
      assert Tokens(rest, d) == [];
      assert strings + [] == strings;
    }
    status := if strings == [] then 2 else 0;
  }
}
