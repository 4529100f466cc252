/** Interface names and indices, resolved through the table the backend keeps. */
module Resolving {
  import opened Text
  import opened Catalogs
  import opened Leaves

  type Table = map<nat, Text>

  /** The only index of this name, if there is exactly one. */
  ghost predicate Unique(names: Table, name: Text, index: nat) {
    index in names && names[index] == name && forall k :: k in names && names[k] == name ==> k == index
  }

  ghost function ByName(names: Table, name: Text): (index: Option<nat>)
    ensures index.Some? ==> Unique(names, name, index.value)
    ensures index.None? ==> forall k :: !Unique(names, name, k)
  {
    if k :| Unique(names, name, k) then Some(k) else None
  }

  function ByIndex(names: Table, index: nat): Option<Text> { if index in names then Some(names[index]) else None }

  ghost predicate Lists(entries: seq<nat>, names: Table) {
    && (forall k :: k in names <==> k in entries)
    && forall i, j :: 0 <= i < j < |entries| ==> entries[i] != entries[j]
  }

  /** The loop over the table counts the matches and keeps the last one. */
  method FindIndex(names: Table, entries: seq<nat>, name: Text) returns (index: Option<nat>, ambiguous: bool)
    requires Lists(entries, names)
    ensures index == ByName(names, name)
    ensures ambiguous <==> exists k, l :: k in names && l in names && k != l && names[k] == name == names[l]
  {
    var matches, last, other := 0, 0, 0;
    var i := 0;
    while i < |entries|
      invariant i <= |entries| && matches >= 0
      invariant matches == 0 <==> forall j :: 0 <= j < i ==> names[entries[j]] != name
      invariant matches > 0 ==> last in entries[..i] && names[last] == name
      invariant matches == 1 ==> forall j :: 0 <= j < i && names[entries[j]] == name ==> entries[j] == last
      invariant matches > 1 ==> other in entries[..i] && other != last && names[other] == name
    {
      assert entries[i] in names;
      if names[entries[i]] == name {
        assert matches > 0 ==> last != entries[i];
        matches, other, last := matches + 1, last, entries[i];
      }
      i := i + 1;
    }
    assert entries[..i] == entries;
    ambiguous := matches > 1;
    index := if matches == 1 then Some(last) else None;
    if matches == 1 {
      assert Unique(names, name, last);
    } else if matches == 0 {
      assert forall k :: k in names ==> names[k] != name;
    } else {
      assert last in names && other in names;
    }
  }

  /** A host that resolves through this table. */
  ghost predicate Uses(h: Host, names: Table) {
    && (forall name :: h.indexOf(name) == ByName(names, name))
    && forall index :: h.nameOf(index) == ByIndex(names, index)
  }

  /** The table serves the codec without loss exactly when no interface that can be named
      has the index that stands for all of them, or one that does not fit 32 bits. */
  lemma TableResolves(h: Host, names: Table)
    requires Uses(h, names)
    ensures Resolves(h) <==> forall name, index: nat :: Unique(names, name, index) && name != ALL ==> index < EVERY
  {
    hide Ascii;
    if Resolves(h) {
      forall name, index: nat | Unique(names, name, index) && name != ALL ensures index < EVERY {
        assert h.indexOf(name) == ByName(names, name) == Some(index);
      }
    }
    if forall name, index: nat :: Unique(names, name, index) && name != ALL ==> index < EVERY {
      forall t | t != ALL && h.indexOf(t).Some?
        ensures var index := h.indexOf(t).value;
                index < EVERY && h.nameOf(index).Some? && h.nameOf(index).value != ALL
                  && h.indexOf(h.nameOf(index).value) == Some(index)
      {
        assert h.indexOf(t) == ByName(names, t);
        var index := h.indexOf(t).value;
        assert Unique(names, t, index);
        assert h.nameOf(index) == ByIndex(names, index) == Some(t);
      }
    }
  }
}
