/** The insertion-ordered dictionaries from factor names to numbers that the backtest attributes profit with. */
module FactorDicts {
  datatype Entry = Entry(name: string, value: real)

  predicate UniqueNames(d: seq<Entry>) {
    forall i, j :: 0 <= i < j < |d| ==> d[i].name != d[j].name
  }

  type Dict = d: seq<Entry> | UniqueNames(d) witness []

  predicate Has(d: seq<Entry>, name: string) {
    exists i :: 0 <= i < |d| && d[i].name == name
  }

  function Get(d: seq<Entry>, name: string): real {
    if |d| == 0 then 0.0
    else if d[|d| - 1].name == name then d[|d| - 1].value
    else Get(d[..|d| - 1], name)
  }

  function Total(d: seq<Entry>): real {
    if |d| == 0 then 0.0 else Total(d[..|d| - 1]) + d[|d| - 1].value
  }

  /** `d[name] = value`: in place when the name is known, at the end when it is new. */
  function Put(d: Dict, name: string, value: real): Dict {
    if Has(d, name) then
      seq(|d|, i requires 0 <= i < |d| => if d[i].name == name then Entry(name, value) else d[i])
    else d + [Entry(name, value)]
  }

  lemma {:induction false} AbsentIsZero(d: seq<Entry>, name: string)
    requires !Has(d, name)
    ensures Get(d, name) == 0.0
  {
    if |d| > 0 {
      AbsentIsZero(d[..|d| - 1], name);
    }
  }

  lemma AppendEntry(d: seq<Entry>, e: Entry, name: string)
    ensures Total(d + [e]) == Total(d) + e.value
    ensures Get(d + [e], name) == if e.name == name then e.value else Get(d, name)
    ensures Has(d + [e], name) <==> Has(d, name) || e.name == name
  {
    var r := d + [e];
    assert r[..|r| - 1] == d && r[|d|] == e;
    if Has(d, name) {
      var i :| 0 <= i < |d| && d[i].name == name;
      assert r[i].name == name;
    }
  }

  lemma EmptyDict(name: string)
    ensures !Has([], name) && Get([], name) == 0.0 && Total([]) == 0.0
  {
  }

  lemma PrefixOf(d: Dict)
    requires |d| > 0
    ensures UniqueNames(d[..|d| - 1]) && !Has(d[..|d| - 1], d[|d| - 1].name)
    ensures d == d[..|d| - 1] + [d[|d| - 1]]
  {
  }

  /** Putting in place, at the last entry or before it. */
  lemma PutAtEnd(before: Dict, last: Entry, value: real)
    requires UniqueNames(before + [last])
    ensures !Has(before, last.name)
    ensures Put(before + [last], last.name, value) == before + [Entry(last.name, value)]
  {
    var d := before + [last];
    assert forall i :: 0 <= i < |before| ==> before[i] == d[i];
    assert d[|before|] == last;
  }

  lemma PutInside(before: Dict, last: Entry, name: string, value: real)
    requires UniqueNames(before + [last]) && Has(before, name)
    ensures last.name != name
    ensures Put(before + [last], name, value) == Put(before, name, value) + [last]
  {
    var d := before + [last];
    assert forall i :: 0 <= i < |before| ==> before[i] == d[i];
    assert d[|before|] == last;
    var i :| 0 <= i < |before| && before[i].name == name;
    assert d[i].name == name;
  }

  /** Putting changes one name's value, and the total by as much. */
  lemma {:induction false} PutEffect(d: Dict, name: string, value: real, other: string)
    ensures Total(Put(d, name, value)) == Total(d) - Get(d, name) + value
    ensures Get(Put(d, name, value), other) == if other == name then value else Get(d, other)
    ensures Has(Put(d, name, value), other) <==> Has(d, other) || other == name
  {
    if !Has(d, name) {
      AbsentIsZero(d, name);
      AppendEntry(d, Entry(name, value), other);
    } else {
      PutInPlace(d, name, value, other);
    }
  }

  lemma {:induction false} PutInPlace(d: Dict, name: string, value: real, other: string)
    requires Has(d, name)
    ensures Total(Put(d, name, value)) == Total(d) - Get(d, name) + value
    ensures Get(Put(d, name, value), other) == if other == name then value else Get(d, other)
    ensures Has(Put(d, name, value), other) <==> Has(d, other)
  {
    PrefixOf(d);
    hide Put, Has, Total, Get;
    var before: seq<Entry>, last := d[..|d| - 1], d[|d| - 1];
    AppendEntry(before, last, other);
    AppendEntry(before, last, name);
    if last.name == name {
      PutAtEnd(before, last, value);
      AppendEntry(before, Entry(name, value), other);
      AbsentIsZero(before, name);
    } else {
      PutInPlace(before, name, value, other);
      PutInside(before, last, name, value);
      AppendEntry(Put(before, name, value), last, other);
    }
  }

  /** Adds every entry of `more` to the value its name has in `d`, which is zero for a new name. */
  function AddAll(d: Dict, more: seq<Entry>): Dict {
    if |more| == 0 then d
    else
      var r, e := AddAll(d, more[..|more| - 1]), more[|more| - 1];
      Put(r, e.name, Get(r, e.name) + e.value)
  }

  lemma {:induction false} AddAllEffect(d: Dict, more: Dict, name: string)
    ensures Total(AddAll(d, more)) == Total(d) + Total(more)
    ensures Get(AddAll(d, more), name) == Get(d, name) + Get(more, name)
    ensures Has(AddAll(d, more), name) <==> Has(d, name) || Has(more, name)
  {
    hide Put, Get, Has, Total;
    if |more| == 0 {
      EmptyDict(name);
    } else {
      PrefixOf(more);
      var before, e := more[..|more| - 1], more[|more| - 1];
      AddAllEffect(d, before, name);
      AddAllEffect(d, before, e.name);
      AppendEntry(before, e, name);
      AbsentIsZero(before, e.name);
      var r := AddAll(d, before);
      PutEffect(r, e.name, Get(r, e.name) + e.value, name);
    }
  }

  /** `{f: value for f in names}`. */
  function Same(names: Dict, value: real): (r: Dict)
    ensures |r| == |names| && forall i :: 0 <= i < |r| ==> r[i] == Entry(names[i].name, value)
  {
    var r: seq<Entry> := seq(|names|, i requires 0 <= i < |names| => Entry(names[i].name, value));
    assert forall i :: 0 <= i < |r| ==> r[i].name == names[i].name;
    r
  }

  lemma {:induction false} SameTotal(names: Dict, value: real)
    ensures Total(Same(names, value)) == |names| as real * value
  {
    if |names| > 0 {
      var n := |names| - 1;
      SameTotal(names[..n], value);
      assert Same(names, value)[..n] == Same(names[..n], value);
      assert (n + 1) as real * value == n as real * value + value;
    }
  }

  lemma {:induction false} GetAt(d: Dict, i: nat)
    requires i < |d|
    ensures Get(d, d[i].name) == d[i].value
  {
    if i < |d| - 1 {
      GetAt(d[..|d| - 1], i);
    }
  }
}
