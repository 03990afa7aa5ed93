/** The two `java.lang.String` operations the REST bean relies on, restricted
    to what the bean uses: `split(",")` and `toUpperCase()` on ASCII letters. */
module JavaStrings {

  /** Upper-cases an ASCII letter and leaves every other character alone. */
  function UpperChar(c: char): char
  {
    if 'a' <= c <= 'z' then (c as int - 'a' as int + 'A' as int) as char else c
  }

  /** `toUpperCase()`, character by character. */
  function Upper(s: string): (r: string)
    ensures |r| == |s|
    ensures forall i :: 0 <= i < |s| ==> r[i] == UpperChar(s[i])
  {
    if s == [] then [] else [UpperChar(s[0])] + Upper(s[1..])
  }

  /** Upper-cases every string of a list, keeping the order. */
  function UpperAll(ps: seq<string>): (r: seq<string>)
    ensures |r| == |ps|
    ensures forall i :: 0 <= i < |ps| ==> r[i] == Upper(ps[i])
  {
    if ps == [] then [] else [Upper(ps[0])] + UpperAll(ps[1..])
  }

  /** The pieces between commas, every one of them kept, even empty ones:
      `"a,,b,"` gives `["a", "", "b", ""]`. */
  function SplitAll(s: string): (r: seq<string>)
    ensures |r| >= 1
  {
    if s == [] then [[]]
    else
      var rest := SplitAll(s[1..]);
      if s[0] == ',' then [[]] + rest
      else [[s[0]] + rest[0]] + rest[1..]
  }

  /** Drops the empty strings at the end of a list. */
  function DropTrailingEmpty(ps: seq<string>): (r: seq<string>)
    ensures |r| <= |ps| && r == ps[..|r|]
    ensures r == [] || r[|r| - 1] != []
    ensures forall i :: |r| <= i < |ps| ==> ps[i] == []
  {
    if ps == [] then []
    else if ps[|ps| - 1] == [] then DropTrailingEmpty(ps[..|ps| - 1])
    else ps
  }

  /** Puts the pieces back together with a comma between neighbours. */
  function Join(ps: seq<string>): string
  {
    if ps == [] then []
    else if |ps| == 1 then ps[0]
    else ps[0] + [','] + Join(ps[1..])
  }

  /** A comma-free prefix joins the first piece of what follows it. */
  lemma {:induction false} SplitAllWord(w: string, t: string)
    requires ',' !in w
    ensures SplitAll(w + t) == [w + SplitAll(t)[0]] + SplitAll(t)[1..]
  {
    var r := SplitAll(t);
    if w == [] {
      assert w + t == t && w + r[0] == r[0];
      assert r == [r[0]] + r[1..];
    } else {
      assert (w + t)[1..] == w[1..] + t;
      SplitAllWord(w[1..], t);
      assert [w[0]] + (w[1..] + r[0]) == w + r[0];
    }
  }

  /** No piece of `SplitAll` holds a comma. */
  lemma {:induction false} SplitAllCommaFree(s: string)
    ensures forall p :: p in SplitAll(s) ==> ',' !in p
  {
    if s != [] {
      SplitAllCommaFree(s[1..]);
      var rest := SplitAll(s[1..]);
      if s[0] != ',' {
        assert rest[0] in rest;
        assert forall p :: p in rest[1..] ==> p in rest;
      }
    }
  }

  /** Prepending to the first piece prepends to the joined string. */
  lemma JoinPrepend(a: string, p: string, tail: seq<string>)
    ensures Join([a + p] + tail) == a + Join([p] + tail)
  {
    assert ([a + p] + tail)[1..] == tail;
    assert ([p] + tail)[1..] == tail;
    if tail != [] {
      var j := Join(tail);
      assert (a + p) + [','] + j == a + (p + [','] + j);
    }
  }

  /** Joining the pieces of `SplitAll` gives the string back. */
  lemma {:induction false} SplitAllJoin(s: string)
    ensures Join(SplitAll(s)) == s
  {
    if s != [] {
      var rest := SplitAll(s[1..]);
      SplitAllJoin(s[1..]);
      assert s == [s[0]] + s[1..];
      if s[0] == ',' {
        assert ([[]] + rest)[1..] == rest;
      } else {
        assert rest == [rest[0]] + rest[1..];
        JoinPrepend([s[0]], rest[0], rest[1..]);
      }
    }
  }

  /** Joining one more piece adds a comma and that piece. */
  lemma {:induction false} JoinSnoc(ps: seq<string>, p: string)
    requires ps != []
    ensures Join(ps + [p]) == Join(ps) + [','] + p
  {
    if |ps| == 1 {
      assert ps + [p] == [ps[0], p];
      assert [ps[0], p][1..] == [p];
    } else {
      assert (ps + [p])[1..] == ps[1..] + [p];
      JoinSnoc(ps[1..], p);
    }
  }

  /** Dropping the trailing empty pieces drops only trailing commas from the
      joined string. */
  lemma {:induction false} DropTrailingEmptyJoin(ps: seq<string>)
    ensures Join(DropTrailingEmpty(ps)) <= Join(ps)
    ensures forall i :: |Join(DropTrailingEmpty(ps))| <= i < |Join(ps)| ==> Join(ps)[i] == ','
  {
    if ps != [] && ps[|ps| - 1] == [] {
      var init := ps[..|ps| - 1];
      assert ps == init + [[]];
      DropTrailingEmptyJoin(init);
      if init != [] {
        JoinSnoc(init, []);
      }
    }
  }

  /** `s.split(",")`: without a comma the whole string is the only piece (so
      `""` gives `[""]`); otherwise every piece is cut and the empty pieces at
      the end are dropped (so `","` gives `[]` and `"a,"` gives `["a"]`).
      Either way no piece holds a comma, and joining the pieces with commas
      gives `s` up to the commas that separated the dropped empty pieces. */
  function Split(s: string): (r: seq<string>)
    ensures forall p :: p in r ==> ',' !in p
    ensures Join(r) <= s
    ensures forall i :: |Join(r)| <= i < |s| ==> s[i] == ','
    ensures r != [] && r[|r| - 1] == [] ==> s == []
    ensures r == [] ==> ',' in s
  {
    if ',' !in s then [s]
    else
      var all := SplitAll(s);
      SplitAllCommaFree(s);
      SplitAllJoin(s);
      DropTrailingEmptyJoin(all);
      DropTrailingEmpty(all)
  }

  /** Upper-casing neither makes nor removes a comma. */
  lemma CommaUnderUpper(s: string)
    ensures ',' in Upper(s) <==> ',' in s
  {
    if ',' in s {
      var i :| 0 <= i < |s| && s[i] == ',';
      assert Upper(s)[i] == ',';
    }
  }

  /** Upper-casing before cutting is the same as upper-casing each piece. */
  lemma {:induction false} SplitAllUpper(s: string)
    ensures SplitAll(Upper(s)) == UpperAll(SplitAll(s))
  {
    if s != [] {
      var u := Upper(s);
      assert u[1..] == Upper(s[1..]);
      SplitAllUpper(s[1..]);
      var rest := SplitAll(s[1..]);
      if s[0] == ',' {
        assert UpperAll([[]] + rest) == [Upper([])] + UpperAll(rest);
      } else {
        assert u[0] != ',';
        assert Upper([s[0]] + rest[0]) == [u[0]] + Upper(rest[0]);
        assert UpperAll([[s[0]] + rest[0]] + rest[1..]) == [Upper([s[0]] + rest[0])] + UpperAll(rest)[1..];
      }
    }
  }

  /** Dropping trailing empty pieces commutes with upper-casing them. */
  lemma {:induction false} DropTrailingEmptyUpper(ps: seq<string>)
    ensures DropTrailingEmpty(UpperAll(ps)) == UpperAll(DropTrailingEmpty(ps))
  {
    if ps != [] {
      var us := UpperAll(ps);
      var init := ps[..|ps| - 1];
      assert us[..|us| - 1] == UpperAll(init);
      if ps[|ps| - 1] == [] {
        DropTrailingEmptyUpper(init);
      } else {
        assert |Upper(ps[|ps| - 1])| > 0;
      }
    }
  }

  /** `split(",")` commutes with upper-casing. */
  lemma SplitUpper(s: string)
    ensures Split(Upper(s)) == UpperAll(Split(s))
  {
    CommaUnderUpper(s);
    if ',' in s {
      SplitAllUpper(s);
      DropTrailingEmptyUpper(SplitAll(s));
    }
  }

  /** Upper-casing twice is upper-casing once. */
  lemma UpperIdempotent(s: string)
    ensures Upper(Upper(s)) == Upper(s)
  {
  }
}
