/**
 * Channel naming and lookup: a PDO entry mapping's parameter name is the
 * PDO's name and the entry's name joined by '.', with every space removed;
 * samplers find their channels by that name.
 */
module Names {
  import opened Wrappers

  /**
   * One PDO entry mapping of a device: where a named channel sits in the
   * process-data buffer.
   */
  datatype Mapping = Mapping(
    pdoName: string,      // pdo_entry->parent->name
    entryName: string,    // pdo_entry->name
    offset: int,          // byte offset in the buffer
    bitPosition: int,     // bit offset within that byte
    bits: int)            // width in bits

  /** A C string: no character in it is NUL. */
  predicate IsCString(s: string)
  {
    '\0' !in s
  }

  /** Every mapping's names can be formatted as C strings. */
  predicate ValidNames(ms: seq<Mapping>)
  {
    forall i :: 0 <= i < |ms| ==> IsCString(ms[i].pdoName) && IsCString(ms[i].entryName)
  }

  /** The characters of `s` other than ' ', in their original order. */
  function RemoveSpaces(s: string): (r: string)
    ensures |r| <= |s|
    ensures ' ' !in r
    ensures forall c :: c in r ==> c in s
  {
    if s == [] then []
    else RemoveSpaces(s[..|s| - 1]) + (if s[|s| - 1] == ' ' then [] else [s[|s| - 1]])
  }

  /** Removing spaces distributes over concatenation, so the kept characters stay in order. */
  lemma {:induction false} RemoveSpacesAppend(a: string, b: string)
    ensures RemoveSpaces(a + b) == RemoveSpaces(a) + RemoveSpaces(b)
  {
    if b == [] {
      assert a + b == a;
    } else {
      var b' := b[..|b| - 1];
      assert (a + b)[..|a + b| - 1] == a + b';
      assert (a + b)[|a + b| - 1] == b[|b| - 1];
      RemoveSpacesAppend(a, b');
    }
  }

  /** A string is left unchanged exactly when it holds no space. */
  lemma {:induction false} RemoveSpacesFixed(s: string)
    ensures RemoveSpaces(s) == s <==> ' ' !in s
  {
    if s != [] {
      RemoveSpacesFixed(s[..|s| - 1]);
      assert s == s[..|s| - 1] + [s[|s| - 1]];
      if ' ' !in s {
        assert ' ' !in s[..|s| - 1];
      }
    }
  }

  /** Every character other than ' ' is kept exactly as often as it occurs. */
  lemma {:induction false} RemoveSpacesKeepsOthers(s: string)
    ensures multiset(RemoveSpaces(s)) == multiset(s)[' ' := 0]
  {
    if s != [] {
      var init := s[..|s| - 1];
      var x := s[|s| - 1];
      RemoveSpacesKeepsOthers(init);
      assert s == init + [x];
      assert multiset(s) == multiset(init) + multiset{x};
      if x == ' ' {
        assert multiset(s)[' ' := 0] == multiset(init)[' ' := 0];
      } else {
        assert multiset(s)[' ' := 0] == multiset(init)[' ' := 0] + multiset{x};
      }
    }
  }

  /** The length drops by exactly the number of spaces. */
  lemma {:induction false} RemoveSpacesLength(s: string)
    ensures |RemoveSpaces(s)| == |s| - multiset(s)[' ']
  {
    if s != [] {
      var init := s[..|s| - 1];
      RemoveSpacesLength(init);
      assert s == init + [s[|s| - 1]];
      assert multiset(s) == multiset(init) + multiset{s[|s| - 1]};
    }
  }

  /** The parameter name makeParamName gives a mapping. */
  function ParamName(m: Mapping): string
  {
    RemoveSpaces(m.pdoName + "." + m.entryName)
  }

  /**
   * makeParamName: format "pdo.entry" into a buffer, then compact it in
   * place, copying every non-space character down to the `out` index.
   */
  method MakeParamName(m: Mapping) returns (name: string)
    requires IsCString(m.pdoName) && IsCString(m.entryName)
    ensures name == RemoveSpaces(m.pdoName + "." + m.entryName)
    ensures ' ' !in name && |name| <= |m.pdoName| + 1 + |m.entryName|
  {
    var joined := m.pdoName + "." + m.entryName;
    var buf := new char[|joined| + 1](i => if 0 <= i < |joined| then joined[i] else '\0');
    // strlen(name) stays |joined| during the loop: no NUL is written before the end.
    var out := 0;
    var n := 0;
    while n < |joined|
      invariant 0 <= out <= n <= |joined|
      invariant buf[..out] == RemoveSpaces(joined[..n])
      invariant forall j :: n <= j < |joined| ==> buf[j] == joined[j]
    {
      ghost var kept := buf[..out];
      var c := buf[n];
      assert joined[..n + 1] == joined[..n] + [c];
      if c != ' ' {
        buf[out] := c;
        assert buf[..out + 1] == kept + [c];
        out := out + 1;
      }
      n := n + 1;
    }
    assert joined[..n] == joined;
    buf[out] := '\0';
    name := buf[..out];
  }

  /** The index of the first mapping at or after `from` whose parameter name is `name`. */
  function ResolveFrom(ms: seq<Mapping>, name: string, from: nat): (r: Option<nat>)
    requires from <= |ms|
    ensures r.Some? ==> from <= r.value < |ms| && ParamName(ms[r.value]) == name
    ensures r.Some? ==> forall j :: from <= j < r.value ==> ParamName(ms[j]) != name
    ensures r.None? ==> forall j :: from <= j < |ms| ==> ParamName(ms[j]) != name
    decreases |ms| - from
  {
    if from == |ms| then None
    else if ParamName(ms[from]) == name then Some(from)
    else ResolveFrom(ms, name, from + 1)
  }

  /** The first mapping of the list whose parameter name is `name`, if any. */
  function Resolve(ms: seq<Mapping>, name: string): Option<nat>
  {
    ResolveFrom(ms, name, 0)
  }

  /** Resolve is a first-match search: both directions of "found". */
  lemma ResolveFirstMatch(ms: seq<Mapping>, name: string)
    ensures Resolve(ms, name).Some? <==> exists j :: 0 <= j < |ms| && ParamName(ms[j]) == name
    ensures Resolve(ms, name).Some? ==>
              var k := Resolve(ms, name).value;
              k < |ms| && ParamName(ms[k]) == name && forall j :: 0 <= j < k ==> ParamName(ms[j]) != name
  {
  }

  /** The query is not normalised: a name holding a space never resolves. */
  lemma QueryWithSpaceNeverResolves(ms: seq<Mapping>, name: string)
    ensures Resolve(ms, name).Some? ==> ' ' !in name
  {
    if Resolve(ms, name).Some? {
      var k := Resolve(ms, name).value;
      assert ParamName(ms[k]) == name;
    }
  }

  /** mapping_by_name: walk the device's mappings in order, returning the first whose name matches. */
  method MappingByName(ms: seq<Mapping>, name: string) returns (r: Option<nat>)
    requires ValidNames(ms)
    ensures r == Resolve(ms, name)
    ensures r.Some? ==> r.value < |ms| && ParamName(ms[r.value]) == name
    ensures r.None? ==> forall j :: 0 <= j < |ms| ==> ParamName(ms[j]) != name
  {
    var i := 0;
    while i < |ms|
      invariant 0 <= i <= |ms|
      invariant ResolveFrom(ms, name, i) == Resolve(ms, name)
    {
      var entryName := MakeParamName(ms[i]);
      if name == entryName {
        return Some(i);
      }
      i := i + 1;
    }
    return None;
  }
}
