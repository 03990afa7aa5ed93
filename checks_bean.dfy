/** The REST bean over the checks store: listing with optional state and
    enabled filters, creation with a default state, lookup, update and delete.

    The store's id-keyed contents are the map `ChecksBean.store`. Its two
    listing queries (`getChecks()` and `getChecksByState(states)`) decide the
    order of what they return and how a check's state matches a name, so
    `GetChecks` receives their answers: the list `all` and the query
    `byState`. */
module ChecksApi {
  import opened Wrappers
  import opened Domain
  import opened JavaStrings

  /** The responses the bean builds: 200 with a list or with one check, 201
      with a location, 404 and 204. */
  datatype Response =
    | OkList(checks: seq<Check>)
    | OkCheck(check: Check)
    | Created(location: string)
    | NotFound
    | NoContent

  // ---------------------------------------------------------------------
  // State names

  /** The state names a `states` query parameter asks for: its comma-separated
      pieces, upper-cased. */
  function StateNames(states: string): set<string>
  {
    UpperSet(Split(states))
  }

  /** The upper-cased strings of a list. */
  function UpperSet(ps: seq<string>): set<string>
  {
    set p | p in ps :: Upper(p)
  }

  /** Adding a string to the list adds its upper-cased form to the set. */
  lemma UpperSetSnoc(ps: seq<string>, p: string)
    ensures UpperSet(ps + [p]) == UpperSet(ps) + {Upper(p)}
  {
    assert forall q :: q in ps + [p] <==> q in ps || q == p;
  }

  /** The names are exactly the pieces of the upper-cased parameter. */
  lemma StateNamesOfUpper(states: string)
    ensures StateNames(states) == set p | p in Split(Upper(states))
  {
    SplitUpper(states);
    UpperSetOfUpperAll(Split(states));
  }

  /** The upper-cased strings of a list are the members of its upper-cased
      copy. */
  lemma UpperSetOfUpperAll(ps: seq<string>)
    ensures UpperSet(ps) == set p | p in UpperAll(ps)
  {
    var us := UpperAll(ps);
    forall x | x in UpperSet(ps) ensures x in us {
      var p :| p in ps && x == Upper(p);
      var i :| 0 <= i < |ps| && ps[i] == p;
      assert us[i] == x;
    }
    forall x | x in us ensures x in UpperSet(ps) {
      var i :| 0 <= i < |us| && us[i] == x;
      assert ps[i] in ps;
    }
  }

  /** The parameter is read case-insensitively: two parameters that differ only
      in the case of their letters ask for the same states. */
  lemma StateNamesIgnoreCase(s: string, t: string)
    requires Upper(s) == Upper(t)
    ensures StateNames(s) == StateNames(t)
  {
    StateNamesOfUpper(s);
    StateNamesOfUpper(t);
  }

  /** Every name is upper-case and holds no comma. */
  lemma StateNamesShape(states: string)
    ensures forall x :: x in StateNames(states) ==> Upper(x) == x && ',' !in x
  {
    StateNamesOfUpper(states);
    forall x | x in StateNames(states) ensures Upper(x) == x {
      var p :| p in Split(states) && x == Upper(p);
      UpperIdempotent(p);
    }
  }

  /** The pieces of `"Warn,"`, every one kept. */
  lemma SplitAllWarn()
    ensures SplitAll("Warn,") == ["Warn", ""]
  {
    assert SplitAll(",") == ["", ""];
    SplitAllWord("Warn", ",");
    assert "Warn" + "," == "Warn," && "Warn" + "" == "Warn";
  }

  /** The pieces of `"ok,Warn,"`, every one kept. */
  lemma SplitAllOkWarn()
    ensures SplitAll("ok,Warn,") == ["ok", "Warn", ""]
  {
    SplitAllWarn();
    assert ",Warn,"[1..] == "Warn,";
    assert SplitAll(",Warn,") == ["", "Warn", ""];
    SplitAllWord("ok", ",Warn,");
    assert "ok" + ",Warn," == "ok,Warn," && "ok" + "" == "ok";
  }

  /** The pieces of `"ok,Warn,"` that `split` returns. */
  lemma SplitOkWarn()
    ensures Split("ok,Warn,") == ["ok", "Warn"]
  {
    SplitAllOkWarn();
    assert "ok,Warn,"[2] == ',';
    assert ["ok", "Warn", ""][..2] == ["ok", "Warn"];
  }

  /** Upper-cased forms of the words used in the example lemmas below. */
  lemma UpperWords()
    ensures Upper("ok") == "OK" && Upper("Warn") == "WARN" && Upper("error") == "ERROR"
  {
    var ok, warn, error := Upper("ok"), Upper("Warn"), Upper("error");
    assert ok[0] == UpperChar('o') == 'O' && ok[1] == UpperChar('k') == 'K';
    assert warn[0] == UpperChar('W') == 'W' && warn[1] == UpperChar('a') == 'A';
    assert warn[2] == UpperChar('r') == 'R' && warn[3] == UpperChar('n') == 'N';
    assert error[0] == UpperChar('e') == 'E' && error[1] == UpperChar('r') == 'R';
    assert error[2] == UpperChar('r') == 'R' && error[3] == UpperChar('o') == 'O';
    assert error[4] == UpperChar('r') == 'R';
  }

  /** The set of upper-cased forms of two strings. */
  lemma UpperSetPair(a: string, b: string)
    ensures UpperSet([a, b]) == {Upper(a), Upper(b)}
  {
    UpperSetSnoc([a], b);
    UpperSetSnoc([], a);
    assert [] + [a] == [a] && [a] + [b] == [a, b];
  }

  /** Letters of any case are accepted and a trailing comma adds nothing. */
  lemma StateNamesTrailingComma()
    ensures StateNames("ok,Warn,") == {"OK", "WARN"}
  {
    SplitOkWarn();
    UpperWords();
    UpperSetPair("ok", "Warn");
  }

  /** A leading comma yields the empty name. */
  lemma StateNamesLeadingComma()
    ensures StateNames(",error") == {"", "ERROR"}
  {
    assert Split(",error") == ["", "error"] by {
      assert ',' in ",error";
      SplitAllWord("error", "");
      assert "error" + "" == "error";
      assert SplitAll(",error") == ["", "error"];
    }
    UpperWords();
    UpperSetPair("", "error");
  }

  /** A lone comma yields no name at all, and an empty parameter yields the
      empty name. */
  lemma StateNamesLoneCommaAndEmpty()
    ensures StateNames(",") == {}
    ensures StateNames("") == {""}
  {
    assert Split(",") == [] by {
      assert ',' in ",";
      assert SplitAll(",") == ["", ""];
    }
    assert Split("") == [""];
    assert Upper("") == "";
    assert forall p :: p in [""] <==> p == "";
  }

  // ---------------------------------------------------------------------
  // Filtering by the enabled flag

  /** The checks whose enabled flag equals `enabled`, in their original order. */
  function KeepEnabled(checks: seq<Check>, enabled: bool): seq<Check>
  {
    if checks == [] then []
    else (if checks[0].enabled == enabled then [checks[0]] else []) + KeepEnabled(checks[1..], enabled)
  }

  /** Every matching check is kept as often as it occurs, and every other
      check is removed. */
  lemma {:induction false} KeepEnabledCounts(checks: seq<Check>, enabled: bool)
    ensures forall c ::
      multiset(KeepEnabled(checks, enabled))[c] == (if c.enabled == enabled then multiset(checks)[c] else 0)
  {
    if checks != [] {
      KeepEnabledCounts(checks[1..], enabled);
      assert checks == [checks[0]] + checks[1..];
    }
  }

  /** Every kept check has the requested flag. */
  lemma KeepEnabledMatches(checks: seq<Check>, enabled: bool)
    ensures forall c :: c in KeepEnabled(checks, enabled) ==> c.enabled == enabled
  {
    KeepEnabledCounts(checks, enabled);
    forall c | c in KeepEnabled(checks, enabled) ensures c.enabled == enabled {
      assert multiset(KeepEnabled(checks, enabled))[c] > 0;
    }
  }

  /** Filtering a concatenation filters each part and keeps them in order, so
      the kept checks stay in their original relative order. */
  lemma {:induction false} KeepEnabledAppend(a: seq<Check>, b: seq<Check>, enabled: bool)
    ensures KeepEnabled(a + b, enabled) == KeepEnabled(a, enabled) + KeepEnabled(b, enabled)
  {
    if a != [] {
      assert (a + b)[1..] == a[1..] + b;
      KeepEnabledAppend(a[1..], b, enabled);
    } else {
      assert a + b == b;
    }
  }

  /** Filtering a list extended by one check. */
  lemma KeepEnabledSnoc(checks: seq<Check>, c: Check, enabled: bool)
    ensures KeepEnabled(checks + [c], enabled) ==
      KeepEnabled(checks, enabled) + (if c.enabled == enabled then [c] else [])
  {
    KeepEnabledAppend(checks, [c], enabled);
    assert [c][1..] == [];
  }

  /** A list in which every check already matches is left as it is. */
  lemma {:induction false} KeepEnabledAllMatch(checks: seq<Check>, enabled: bool)
    requires forall c :: c in checks ==> c.enabled == enabled
    ensures KeepEnabled(checks, enabled) == checks
  {
    if checks != [] {
      assert forall c :: c in checks[1..] ==> c in checks;
      KeepEnabledAllMatch(checks[1..], enabled);
    }
  }

  /** Filtering twice is filtering once. */
  lemma KeepEnabledIdempotent(checks: seq<Check>, enabled: bool)
    ensures KeepEnabled(KeepEnabled(checks, enabled), enabled) == KeepEnabled(checks, enabled)
  {
    KeepEnabledMatches(checks, enabled);
    KeepEnabledAllMatch(KeepEnabled(checks, enabled), enabled);
  }

  // ---------------------------------------------------------------------
  // Creation

  /** The check as it is handed to the store: a missing state becomes OK and
      nothing else changes. */
  function WithDefaultState(check: Check): (c: Check)
    ensures c.state.Some?
    ensures check.state == None ==> c.state == Some(OK)
    ensures check.state.Some? ==> c == check
    ensures c == check.(state := c.state)
  {
    if check.state == None then check.(state := Some(OK)) else check
  }

  /** The location of a stored check. */
  function Uri(checkId: string): (u: string)
    ensures |u| == 7 + |checkId|
    ensures u[..7] == "checks/" && u[7..] == checkId
  {
    "checks/" + checkId
  }

  /** Distinct checks get distinct locations. */
  lemma UriInjective(a: string, b: string)
    requires Uri(a) == Uri(b)
    ensures a == b
  {
    assert a == Uri(a)[7..];
  }

  // ---------------------------------------------------------------------
  // The bean

  /** A list the bean may change in place. */
  class CheckList {
    var items: seq<Check>

    constructor (items: seq<Check>)
      ensures this.items == items
    {
      this.items := items;
    }
  }

  class ChecksBean {
    /** The stored checks, by id. */
    var store: map<string, Check>

    constructor (store: map<string, Check>)
      ensures this.store == store
    {
      this.store := store;
    }

    /** Lists the checks: by state when `states` is given, all of them
        otherwise, then keeps those with the requested enabled flag when
        `enabled` is given. The full listing holds exactly the stored checks
        and the state query returns stored checks only. */
    method GetChecks(states: Option<string>, enabled: Option<bool>,
                     all: seq<Check>, byState: set<string> -> seq<Check>)
      returns (r: Response)
      requires forall c :: c in all <==> c in store.Values
      requires forall names, c :: c in byState(names) ==> c in store.Values
      ensures r.OkList?
      ensures states.Some? && enabled == None ==> r.checks == byState(StateNames(states.value))
      ensures states == None && enabled == None ==> r.checks == all
      ensures enabled.Some? ==>
        r.checks == KeepEnabled(if states.Some? then byState(StateNames(states.value)) else all, enabled.value)
      ensures forall c :: c in r.checks ==> c in store.Values
      ensures enabled.Some? ==> forall c :: c in r.checks ==> c.enabled == enabled.value
    {
      var checks: CheckList;
      if states.Some? {
        var names := GetStates(states.value);
        checks := new CheckList(byState(names));
      } else {
        checks := new CheckList(all);
      }
      if enabled.Some? {
        ghost var listed := checks.items;
        FilterByEnabled(checks, enabled.value);
        KeepEnabledCounts(listed, enabled.value);
        forall c | c in checks.items ensures c in listed && c.enabled == enabled.value {
          assert multiset(checks.items)[c] > 0;
        }
      }
      r := OkList(checks.items);
    }

    /** Stores a new check under the fresh id the store assigns, with its
        state defaulted to OK, and answers with its location. No stored check
        is replaced. */
    method CreateCheck(check: Check, assignedId: string) returns (r: Response)
      requires assignedId !in store
      modifies this
      ensures store == old(store)[assignedId := WithDefaultState(check).(id := assignedId)]
      ensures |store| == |old(store)| + 1
      ensures r == Created(Uri(assignedId))
    {
      var stored := WithDefaultState(check).(id := assignedId);
      store := store[assignedId := stored];
      r := Created(Uri(stored.id));
    }

    /** Saves `check` when a check with `checkId` exists; the store files it
        under the check's own id. An unknown id saves nothing. */
    method UpdateCheck(checkId: string, check: Check) returns (r: Response)
      modifies this
      ensures checkId !in old(store) ==> r == NotFound && store == old(store)
      ensures checkId in old(store) ==> r == OkCheck(check) && store == old(store)[check.id := check]
    {
      if checkId !in store {
        return NotFound;
      }
      store := store[check.id := check];
      r := OkCheck(check);
    }

    /** Looks a check up by id. */
    method GetCheck(checkId: string) returns (r: Response)
      ensures r == NotFound <==> checkId !in store
      ensures checkId in store ==> r == OkCheck(store[checkId])
    {
      if checkId !in store {
        return NotFound;
      }
      r := OkCheck(store[checkId]);
    }

    /** Deletes a check; the answer is 204 whether or not it existed. */
    method DeleteCheck(checkId: string) returns (r: Response)
      modifies this
      ensures store == old(store) - {checkId}
      ensures r == NoContent
    {
      store := store - {checkId};
      r := NoContent;
    }

    /** Removes, in place, every check whose enabled flag differs from
        `enabled`, the way an iterator's `remove` does. */
    static method FilterByEnabled(checks: CheckList, enabled: bool)
      modifies checks
      ensures checks.items == KeepEnabled(old(checks.items), enabled)
    {
      var items := checks.items;
      ghost var seen := 0;
      var i := 0;
      while i < |items|
        invariant 0 <= seen <= |old(checks.items)|
        invariant 0 <= i <= |items|
        invariant items[..i] == KeepEnabled(old(checks.items)[..seen], enabled)
        invariant items[i..] == old(checks.items)[seen..]
        decreases |items| - i
      {
        ghost var original := old(checks.items);
        ghost var kept, rest := items[..i], items[i + 1..];
        var c := items[i];
        assert c == original[seen] && rest == original[seen + 1..] by {
          assert items[i..] == [c] + rest;
        }
        KeepEnabledSnoc(original[..seen], c, enabled);
        assert original[..seen + 1] == original[..seen] + [c];
        if c.enabled == enabled {
          assert items[..i + 1] == kept + [c];
          i := i + 1;
        } else {
          items := items[..i] + items[i + 1..];
          assert items[..i] == kept && items[i..] == rest;
        }
        seen := seen + 1;
      }
      assert old(checks.items)[..seen] == old(checks.items);
      assert items[..i] == items;
      checks.items := items;
    }

    /** The set of upper-cased comma-separated pieces of `states`. */
    static method GetStates(states: string) returns (result: set<string>)
      ensures result == StateNames(states)
    {
      var pieces := Split(states);
      result := {};
      for i := 0 to |pieces|
        invariant result == UpperSet(pieces[..i])
      {
        assert pieces[..i + 1] == pieces[..i] + [pieces[i]];
        UpperSetSnoc(pieces[..i], pieces[i]);
        result := result + {Upper(pieces[i])};
      }
      assert pieces[..|pieces|] == pieces;
    }
  }
}
