/** The observer names of the week view, kept as joined text. */
module TextFormats {
  import opened Text

  // ----- observer names

  function TrimEach(parts: seq<string>): seq<string> {
    if parts == [] then []
    else if TrimSpace(parts[0]) == "" then TrimEach(parts[1..])
    else [TrimSpace(parts[0])] + TrimEach(parts[1..])
  }

  function InsertName(name: string, names: seq<string>): (r: seq<string>)
    ensures multiset(r) == multiset(names) + multiset{name}
  {
    if names == [] then [name]
    else if Before(names[0], name) then
      assert names == [names[0]] + names[1..];
      [names[0]] + InsertName(name, names[1..])
    else [name] + names
  }

  function SortNames(names: seq<string>): (r: seq<string>)
    ensures multiset(r) == multiset(names)
  {
    if names == [] then []
    else
      assert names == [names[0]] + names[1..];
      InsertName(names[0], SortNames(names[1..]))
  }

  predicate InOrder(names: seq<string>) {
    forall i, j :: 0 <= i < j < |names| ==> !Before(names[j], names[i])
  }

  lemma {:induction false} InsertInOrder(name: string, names: seq<string>)
    requires InOrder(names)
    ensures InOrder(InsertName(name, names))
  {
    if names != [] {
      if Before(names[0], name) {
        InsertInOrder(name, names[1..]);
        var rest := InsertName(name, names[1..]);
        forall i | 0 <= i < |rest| ensures !Before(rest[i], names[0]) {
          BeforeIsTotal(name, names[0]);
          assert rest[i] in multiset(rest);
          assert rest[i] == name || rest[i] in names[1..];
        }
      } else {
        forall i | 0 <= i < |names| ensures !Before(names[i], name) {
          if i > 0 && Before(names[i], name) {
            BeforeIsTotal(names[0], name);
            if names[0] != name {
              BeforeIsTransitive(names[i], name, names[0]);
            }
          }
        }
      }
    }
  }

  lemma {:induction false} SortedInOrder(names: seq<string>)
    ensures InOrder(SortNames(names))
  {
    if names != [] {
      SortedInOrder(names[1..]);
      InsertInOrder(names[0], SortNames(names[1..]));
    }
  }

  function ObserverNames(csv: string): seq<string> {
    var value := TrimSpace(csv);
    if value == "" then [] else SortNames(TrimEach(Split(value, ',')))
  }

  lemma TrimNext(parts: seq<string>, i: nat)
    requires i < |parts|
    ensures var name := TrimSpace(parts[i]);
            TrimEach(parts[i..]) == (if name == "" then [] else [name]) + TrimEach(parts[i + 1..])
  {
  }

  lemma TrimNone()
    ensures TrimEach([]) == []
  {
  }

  method ParseObserverNames(csv: string) returns (out: seq<string>)
    ensures out == ObserverNames(csv)
  {
    hide Split, TrimSpace, SortNames, TrimEach;
    var value := TrimSpace(csv);
    if value == "" {
      return [];
    }
    var parts := Split(value, ',');
    out := [];
    var i := 0;
    assert parts[0..] == parts;
    while i < |parts|
      invariant 0 <= i <= |parts|
      invariant out + TrimEach(parts[i..]) == TrimEach(parts)
    {
      TrimNext(parts, i);
      var name := TrimSpace(parts[i]);
      if name != "" {
        out := out + [name];
      }
      i := i + 1;
    }
    TrimNone();
    assert parts[i..] == [];
    assert out == TrimEach(parts);
    out := SortNames(out);
  }

  /** A key that survives joining and splitting. */
  ghost predicate CleanKey(key: string) {
    key != "" && Trimmed(key) && ',' !in key
  }

  ghost predicate AllClean(keys: seq<string>) {
    forall i :: 0 <= i < |keys| ==> CleanKey(keys[i])
  }

  lemma {:induction false} JoinIsTrimmed(keys: seq<string>)
    requires keys != [] && AllClean(keys)
    ensures Join(keys, ',') != "" && Trimmed(Join(keys, ','))
  {
    assert CleanKey(keys[0]);
    if |keys| > 1 {
      JoinIsTrimmed(keys[1..]);
      var rest := Join(keys[1..], ',');
      var joined := keys[0] + "," + rest;
      assert joined[0] == keys[0][0] && joined[|joined| - 1] == rest[|rest| - 1];
    }
  }

  lemma {:induction false} TrimEachKeeps(keys: seq<string>)
    requires AllClean(keys)
    ensures TrimEach(keys) == keys
  {
    if keys != [] {
      assert CleanKey(keys[0]);
      TrimSpaceTrims(keys[0]);
      TrimEachKeeps(keys[1..]);
    }
  }

  /** Whatever the text, splitting and trimming leave clean names only. */
  lemma {:induction false} TrimEachIsClean(parts: seq<string>)
    requires Lacks(parts, ',')
    ensures AllClean(TrimEach(parts))
  {
    if parts != [] {
      assert ',' !in parts[0];
      TrimSpaceTrims(parts[0]);
      TrimEachIsClean(parts[1..]);
    }
  }

  /** `GROUP_CONCAT` joins the distinct keys with commas, in no particular order.  The names
      parsed back are the keys, sorted, exactly when every key is non-empty, trimmed and free of
      commas; an observer name with a comma in it is shown as two. */
  lemma NamesMatchKeysIff(keys: seq<string>)
    requires keys != []
    ensures multiset(ObserverNames(Join(keys, ','))) == multiset(keys) <==> AllClean(keys)
    ensures InOrder(ObserverNames(Join(keys, ',')))
  {
    var joined := Join(keys, ',');
    var parts := Split(TrimSpace(joined), ',');
    SortedInOrder(TrimEach(parts));
    if AllClean(keys) {
      JoinIsTrimmed(keys);
      TrimSpaceTrims(joined);
      SplitInvertsJoin(keys, ',');
      TrimEachKeeps(keys);
    }
    SplitLacks(TrimSpace(joined), ',');
    TrimEachIsClean(parts);
    if multiset(ObserverNames(joined)) == multiset(keys) {
      if TrimSpace(joined) != "" {
        CleanlinessIsShared(TrimEach(parts), keys);
      }
    }
  }

  lemma CleanlinessIsShared(a: seq<string>, b: seq<string>)
    requires AllClean(a) && multiset(a) == multiset(b)
    ensures AllClean(b)
  {
    forall i | 0 <= i < |b| ensures CleanKey(b[i]) {
      assert b[i] in multiset(b);
      assert b[i] in multiset(a);
      var j :| 0 <= j < |a| && a[j] == b[i];
    }
  }

  /** Whatever the text: the names are its parts between commas, trimmed, without the empty ones. */
  lemma NamesAreTrimmedParts(csv: string)
    ensures InOrder(ObserverNames(csv))
    ensures forall name :: name in ObserverNames(csv) <==>
              name != "" && exists i :: 0 <= i < |Split(TrimSpace(csv), ',')| && TrimSpace(Split(TrimSpace(csv), ',')[i]) == name
  {
    hide *;
    var parts := Split(TrimSpace(csv), ',');
    NamesOfText(csv);
    SortedInOrder(TrimEach(parts));
    TrimmedParts(parts);
    SameNames(TrimEach(parts));
  }

  lemma NamesOfText(csv: string)
    ensures ObserverNames(csv) == SortNames(TrimEach(Split(TrimSpace(csv), ',')))
  {
    if TrimSpace(csv) == "" {
      assert Split("", ',') == [""];
      TrimSpaceTrims("");
      assert TrimEach([""]) == [] && SortNames([]) == [];
    }
  }

  lemma SameNames(names: seq<string>)
    ensures forall name :: name in SortNames(names) <==> name in names
  {
    forall name ensures name in SortNames(names) <==> name in names {
      assert name in multiset(SortNames(names)) <==> name in multiset(names);
    }
  }

  lemma {:induction false} TrimmedParts(parts: seq<string>)
    ensures forall name :: name in TrimEach(parts) <==>
              name != "" && exists i :: 0 <= i < |parts| && TrimSpace(parts[i]) == name
  {
    hide TrimSpace;
    if parts != [] {
      TrimmedParts(parts[1..]);
      assert forall i :: 0 < i < |parts| ==> parts[i] == parts[1..][i - 1];
      forall name ensures name in TrimEach(parts) <==>
              name != "" && exists i :: 0 <= i < |parts| && TrimSpace(parts[i]) == name
      {
        if i :| 0 <= i < |parts| - 1 && TrimSpace(parts[1..][i]) == name {
          assert parts[i + 1] == parts[1..][i];
        }
      }
    }
  }

  /** Clean names, joined, are parsed back in order. */
  lemma CleanNamesReturn(keys: seq<string>)
    requires keys != [] && AllClean(keys)
    ensures ObserverNames(Join(keys, ',')) == SortNames(keys)
  {
    hide Split, TrimSpace, TrimEach, Join, SortNames, CleanKey;
    CleanHasNoComma(keys);
    JoinIsTrimmed(keys);
    TrimSpaceTrims(Join(keys, ','));
    SplitInvertsJoin(keys, ',');
    TrimEachKeeps(keys);
  }

  lemma CleanHasNoComma(keys: seq<string>)
    requires AllClean(keys)
    ensures Lacks(keys, ',')
  {
    assert forall i :: 0 <= i < |keys| ==> CleanKey(keys[i]);
  }

  lemma TwoNamesJoined()
    ensures Join(["B,A"], ',') == Join(["B", "A"], ',')
  {
    assert ["B", "A"][1..] == ["A"];
  }

  lemma TwoNamesSorted()
    ensures AllClean(["B", "A"]) && SortNames(["B", "A"]) == ["A", "B"]
  {
    assert ["B", "A"][1..] == ["A"];
    assert Before("A", "B");
  }

  /** One observer whose name has a comma in it is shown as two. */
  lemma CommaShowsTwo()
    ensures ObserverNames(Join(["B,A"], ',')) == ["A", "B"]
  {
    hide *;
    TwoNamesJoined();
    TwoNamesSorted();
    CleanNamesReturn(["B", "A"]);
  }
}
