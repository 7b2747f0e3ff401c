/** The counting half of the support route: the observations' labels are
    tallied in a dictionary, and the dominant label is the first entry of the
    dictionary's entries sorted by count, descending. The language-model call
    that follows is not part of this model. */
module Support {
  import opened Js
  import opened Store
  import Query

  // ----------------------------------------------------------- the request

  /** An element of `observations`: `null` and `undefined` throw on `o.label`;
      any other element names the property key `String(o.label)` (the key
      "undefined" when it has no label). */
  datatype Observation = Missing | Labelled(key: string)

  datatype Observations = NotArray | Items(items: seq<Observation>)

  /** `await req.json()` destructured as `{ observations, userId }`: it throws
      on an unparseable body and on `null`. */
  datatype SupportBody = Unparseable | NullBody | Object(observations: Observations)

  /** The labels of observations none of which is missing. */
  function LabelsOf(items: seq<Observation>): (r: seq<string>)
    requires Missing !in items
    ensures |r| == |items| && forall i :: 0 <= i < |items| ==> r[i] == items[i].key
    ensures forall k :: k in r <==> Labelled(k) in items
  {
    var r := seq(|items|, i requires 0 <= i < |items| => items[i].key);
    assert forall i :: 0 <= i < |items| ==> items[i] == Labelled(r[i]);
    r
  }

  // ------------------------------------------------------------ the tally

  /** How many of the labels equal k. */
  function Occurrences(labels: seq<string>, k: string): nat {
    if labels == [] then 0
    else
      var n := |labels| - 1;
      Occurrences(labels[..n], k) + (if labels[n] == k then 1 else 0)
  }

  ghost predicate Distinct(s: seq<string>) {
    forall i, j :: 0 <= i < j < |s| ==> s[i] != s[j]
  }

  /** The dictionary's keys in insertion order: each label at its first appearance. */
  function Keys(labels: seq<string>): (r: seq<string>)
    ensures forall k :: k in r <==> k in labels
  {
    if labels == [] then []
    else
      var n := |labels| - 1;
      Keys(labels[..n]) + (if labels[n] in labels[..n] then [] else [labels[n]])
  }

  /** No key is inserted twice. */
  lemma {:induction false} KeysDistinct(labels: seq<string>)
    ensures Distinct(Keys(labels))
  {
    if labels != [] {
      var n := |labels| - 1;
      KeysDistinct(labels[..n]);
    }
  }

  /** `emotionCount` after the loop, counting own keys only. */
  function Tally(labels: seq<string>): (r: map<string, nat>)
    ensures forall k :: k in r <==> k in labels
  {
    if labels == [] then map[]
    else
      var n := |labels| - 1;
      var t := Tally(labels[..n]);
      var x := labels[n];
      assert forall k :: k in labels <==> k in labels[..n] || k == x by {
        assert labels == labels[..n] + [x];
      }
      t[x := CountOf(t, x) + 1]
  }

  function CountOf(counts: map<string, nat>, k: string): nat {
    if k in counts then counts[k] else 0
  }

  lemma OccurrencesSnoc(l: seq<string>, x: string, k: string)
    ensures Occurrences(l + [x], k) == Occurrences(l, k) + (if x == k then 1 else 0)
  {
    assert (l + [x])[..|l|] == l;
  }

  lemma KeysSnoc(l: seq<string>, x: string)
    ensures Keys(l + [x]) == Keys(l) + (if x in l then [] else [x])
  {
    assert (l + [x])[..|l|] == l;
  }

  lemma TallySnoc(l: seq<string>, x: string)
    ensures Tally(l + [x]) == Tally(l)[x := CountOf(Tally(l), x) + 1]
  {
    assert (l + [x])[..|l|] == l;
  }

  /** The tally counts every label exactly as often as it occurs. */
  lemma {:induction false} TallyCounts(labels: seq<string>, k: string)
    ensures CountOf(Tally(labels), k) == Occurrences(labels, k)
  {
    if labels != [] {
      var n := |labels| - 1;
      var l, x := labels[..n], labels[n];
      assert labels == l + [x];
      TallyCounts(l, k);
      TallySnoc(l, x);
      OccurrencesSnoc(l, x, k);
    }
  }

  /** The sum of the counts of the keys. */
  function Total(keys: seq<string>, counts: map<string, nat>): int {
    if keys == [] then 0 else Total(keys[..|keys| - 1], counts) + CountOf(counts, keys[|keys| - 1])
  }

  /** Raising one key's count by one raises the total over distinct keys by
      one when the key is among them, and leaves it alone otherwise. */
  lemma {:induction false} TotalBump(keys: seq<string>, counts: map<string, nat>, x: string)
    requires Distinct(keys)
    ensures Total(keys, counts[x := CountOf(counts, x) + 1]) == Total(keys, counts) + (if x in keys then 1 else 0)
  {
    if keys != [] {
      var n := |keys| - 1;
      assert Distinct(keys[..n]);
      TotalBump(keys[..n], counts, x);
      assert x in keys <==> x in keys[..n] || x == keys[n] by {
        assert keys == keys[..n] + [keys[n]];
      }
      if x == keys[n] {
        assert keys[n] !in keys[..n];
      }
    }
  }

  /** Appending one key adds its count. */
  lemma TotalAppend(keys: seq<string>, counts: map<string, nat>, x: string)
    ensures Total(keys + [x], counts) == Total(keys, counts) + CountOf(counts, x)
  {
    assert (keys + [x])[..|keys|] == keys;
  }

  /** A label seen before: the keys stay, its count goes up by one. */
  lemma TallyTotalRepeat(l: seq<string>, x: string)
    requires x in l
    ensures Total(Keys(l + [x]), Tally(l + [x])) == Total(Keys(l), Tally(l)) + 1
  {
    var ks, t := Keys(l), Tally(l);
    assert Keys(l + [x]) == ks by {
      KeysSnoc(l, x);
      assert ks + [] == ks;
    }
    assert Tally(l + [x]) == t[x := CountOf(t, x) + 1] by {
      TallySnoc(l, x);
    }
    assert x in ks;
    KeysDistinct(l);
    TotalBump(ks, t, x);
  }

  /** A count outside the keys does not enter the total. */
  lemma {:induction false} TotalIgnores(keys: seq<string>, counts: map<string, nat>, x: string, v: nat)
    requires x !in keys
    ensures Total(keys, counts[x := v]) == Total(keys, counts)
  {
    if keys != [] {
      TotalIgnores(keys[..|keys| - 1], counts, x, v);
    }
  }

  /** A new label: it becomes the last key, with a count of one. */
  lemma TallyTotalFresh(l: seq<string>, x: string)
    requires x !in l
    ensures Total(Keys(l + [x]), Tally(l + [x])) == Total(Keys(l), Tally(l)) + 1
  {
    var ks, t := Keys(l), Tally(l);
    var t' := t[x := 1];
    KeysSnoc(l, x);
    TallySnoc(l, x);
    TotalIgnores(ks, t, x, 1);
    TotalAppend(ks, t', x);
  }

  /** The counts add up to the number of observations. */
  lemma {:induction false} TallyTotal(labels: seq<string>)
    ensures Total(Keys(labels), Tally(labels)) == |labels|
  {
    if labels != [] {
      var n := |labels| - 1;
      assert labels == labels[..n] + [labels[n]];
      TallyTotal(labels[..n]);
      if labels[n] in labels[..n] {
        TallyTotalRepeat(labels[..n], labels[n]);
      } else {
        TallyTotalFresh(labels[..n], labels[n]);
      }
    }
  }

  // ------------------------------------------------------ the entry order

  predicate IsDigit(c: char) {
    '0' <= c <= '9'
  }

  function DigitsValue(s: string): nat {
    if s == [] then 0
    else
      var c := s[|s| - 1];
      DigitsValue(s[..|s| - 1]) * 10 + (if IsDigit(c) then c as int - '0' as int else 0)
  }

  /** A canonical array index ("0", "7", "42", below 2^32 - 1): such keys are
      enumerated before all others, in ascending numeric order. */
  predicate IsArrayIndex(s: string) {
    && s != []
    && (forall i :: 0 <= i < |s| ==> IsDigit(s[i]))
    && (s[0] != '0' || |s| == 1)
    && DigitsValue(s) < 0xFFFF_FFFF
  }

  function NegatedIndex(s: string): int {
    -(DigitsValue(s) as int)
  }

  /** `Object.entries` order of the dictionary: array-index keys ascending,
      then the other keys in insertion order. */
  function EntryOrder(keys: seq<string>): (r: seq<string>)
    ensures forall k :: k in r <==> k in keys
  {
    var indices := Query.Where(keys, IsArrayIndex);
    var sorted := Query.SortDesc(indices, NegatedIndex);
    Query.MultisetMembers(sorted, indices);
    sorted + Query.Where(keys, (k: string) => !IsArrayIndex(k))
  }

  /** `Object.entries(emotionCount).sort((a, b) => b[1] - a[1])[0][0]`: a
      stable sort by count, descending, of the entries, and its first key. */
  function Dominant(keys: seq<string>, counts: map<string, nat>): (d: string)
    requires keys != []
  {
    var entries := EntryOrder(keys);
    assert keys[0] in entries;
    Query.SortDesc(entries, (k: string) => CountOf(counts, k))[0]
  }

  /** With no array-index label the entries come in insertion order. */
  lemma EntryOrderPlain(keys: seq<string>)
    requires forall i :: 0 <= i < |keys| ==> !IsArrayIndex(keys[i])
    ensures EntryOrder(keys) == keys
  {
    Query.WhereNone(keys, IsArrayIndex);
    Query.WhereAll(keys, (k: string) => !IsArrayIndex(k));
  }

  /** The array-index keys come before all other keys in the entry order. */
  lemma EntryOrderIndicesFirst(keys: seq<string>)
    ensures var e := EntryOrder(keys);
      forall i, j :: 0 <= i < j < |e| && IsArrayIndex(e[j]) ==> IsArrayIndex(e[i])
  {
    var indices := Query.Where(keys, IsArrayIndex);
    var sorted := Query.SortDesc(indices, NegatedIndex);
    var rest := Query.Where(keys, (k: string) => !IsArrayIndex(k));
    Query.MultisetMembers(sorted, indices);
    var e := sorted + rest;
    assert EntryOrder(keys) == e;
    forall i, j | 0 <= i < j < |e| && IsArrayIndex(e[j]) ensures IsArrayIndex(e[i]) {
      if j < |sorted| {
        assert e[i] == sorted[i] && sorted[i] in indices;
      }
    }
  }

  /** Where the dominant key sits in the entry order: the first entry of
      largest count. */
  function DominantPosition(keys: seq<string>, counts: map<string, nat>): nat
    requires keys != []
  {
    var e := EntryOrder(keys);
    assert keys[0] in e;
    Query.FirstArgMax(e, (k: string) => CountOf(counts, k))
  }

  /** The dominant key is a key, none has a larger count, and every entry
      enumerated before it has a smaller one. */
  lemma DominantFirstMaximal(keys: seq<string>, counts: map<string, nat>)
    requires keys != []
    ensures var d := Dominant(keys, counts);
      var e := EntryOrder(keys);
      var i := DominantPosition(keys, counts);
      && d in keys
      && (forall k :: k in keys ==> CountOf(counts, k) <= CountOf(counts, d))
      && i < |e| && e[i] == d
      && (forall j :: 0 <= j < i ==> CountOf(counts, e[j]) < CountOf(counts, d))
  {
    var e := EntryOrder(keys);
    var key := (k: string) => CountOf(counts, k);
    assert keys[0] in e;
    Query.SortDescHead(e, key);
    var i := Query.FirstArgMax(e, key);
    assert Dominant(keys, counts) == e[i];
    forall k | k in keys ensures CountOf(counts, k) <= CountOf(counts, e[i]) {
      var j :| 0 <= j < |e| && e[j] == k;
      assert key(e[j]) <= key(e[i]);
    }
    forall j | 0 <= j < i ensures CountOf(counts, e[j]) < CountOf(counts, e[i]) {
      assert key(e[j]) < key(e[i]);
    }
  }

  /** The dominant label is one of the labels, and no label occurs more often. */
  lemma DominantIsMostFrequent(labels: seq<string>)
    requires labels != []
    ensures var d := Dominant(Keys(labels), Tally(labels));
      && d in labels
      && forall k :: k in labels ==> Occurrences(labels, k) <= Occurrences(labels, d)
  {
    var d := Dominant(Keys(labels), Tally(labels));
    assert labels[0] in Keys(labels);
    DominantFirstMaximal(Keys(labels), Tally(labels));
    TallyCounts(labels, d);
    forall k | k in labels ensures Occurrences(labels, k) <= Occurrences(labels, d) {
      TallyCounts(labels, k);
    }
  }

  /** A tie between an array-index label and others goes to an array-index label. */
  lemma IndexLabelWinsTie(labels: seq<string>, k: string)
    requires k in labels && IsArrayIndex(k)
    requires forall k' :: k' in labels ==> Occurrences(labels, k') <= Occurrences(labels, k)
    ensures IsArrayIndex(Dominant(Keys(labels), Tally(labels)))
  {
    var keys, counts := Keys(labels), Tally(labels);
    assert k in keys;
    var d := Dominant(keys, counts);
    assert d in labels by {
      DominantFirstMaximal(keys, counts);
    }
    TallyCounts(labels, k);
    TallyCounts(labels, d);
    IndexKeyWinsTie(keys, counts, k);
  }

  lemma IndexKeyWinsTie(keys: seq<string>, counts: map<string, nat>, k: string)
    requires k in keys && IsArrayIndex(k)
    requires CountOf(counts, Dominant(keys, counts)) <= CountOf(counts, k)
    ensures IsArrayIndex(Dominant(keys, counts))
  {
    DominantFirstMaximal(keys, counts);
    EntryOrderIndicesFirst(keys);
    var e := EntryOrder(keys);
    var i := DominantPosition(keys, counts);
    assert k in e;
    var j :| 0 <= j < |e| && e[j] == k;
    assert i <= j;
    assert IsArrayIndex(e[i]) by {
      if i < j { }
    }
  }

  /** With no array-index label a tie goes to the label that appeared first:
      the dominant key is the first inserted key of largest count. */
  lemma PlainTieGoesToFirstSeen(labels: seq<string>)
    requires labels != []
    requires forall i :: 0 <= i < |labels| ==> !IsArrayIndex(labels[i])
    ensures var keys := Keys(labels);
      var i := DominantPosition(keys, Tally(labels));
      && i < |keys| && keys[i] == Dominant(keys, Tally(labels))
      && forall j :: 0 <= j < i ==> Occurrences(labels, keys[j]) < Occurrences(labels, keys[i])
  {
    var keys, counts := Keys(labels), Tally(labels);
    forall i | 0 <= i < |keys| ensures !IsArrayIndex(keys[i]) {
      assert keys[i] in labels;
    }
    EntryOrderPlain(keys);
    assert labels[0] in keys;
    DominantFirstMaximal(keys, counts);
    var i := DominantPosition(keys, counts);
    forall j | 0 <= j < i ensures Occurrences(labels, keys[j]) < Occurrences(labels, keys[i]) {
      TallyCounts(labels, keys[i]);
      TallyCounts(labels, keys[j]);
    }
  }

  // ---------------------------------------------------- the tally as written

  /** A dictionary value as written: a number, or the text an inherited
      member turns into when 1 is added to it. */
  datatype Count = Number(n: nat) | Text

  function Bump(c: Count): Count {
    match c
    case Number(n) => Number(n + 1)
    case Text => Text
  }

  /** `emotionCount[o.label] = (emotionCount[o.label] || 0) + 1` on a plain
      object, as written: a key without an own entry that names an inherited
      member reads that member, so its count becomes text; and assigning to
      `__proto__` creates no entry at all. */
  function TallyAsWritten(labels: seq<string>): map<string, Count> {
    if labels == [] then map[]
    else
      var n := |labels| - 1;
      var t := TallyAsWritten(labels[..n]);
      var x := labels[n];
      if x == "__proto__" then t
      else if x in t then t[x := Bump(t[x])]
      else if x in ObjectPrototypeKeys then t[x := Text]
      else t[x := Number(1)]
  }

  /** The labels whose assignment reaches an own entry: all but `__proto__`,
      whose setter ignores a number. */
  function Assigned(labels: seq<string>): seq<string> {
    if labels == [] then []
    else
      var n := |labels| - 1;
      Assigned(labels[..n]) + (if labels[n] == "__proto__" then [] else [labels[n]])
  }

  lemma AssignedSnoc(l: seq<string>, x: string)
    ensures Assigned(l + [x]) == Assigned(l) + (if x == "__proto__" then [] else [x])
  {
    assert (l + [x])[..|l|] == l;
  }

  lemma {:induction false} AssignedMembers(labels: seq<string>)
    ensures forall k :: k in Assigned(labels) <==> k in labels && k != "__proto__"
  {
    if labels != [] {
      var n := |labels| - 1;
      assert labels == labels[..n] + [labels[n]];
      AssignedMembers(labels[..n]);
    }
  }

  lemma {:induction false} AssignedAll(labels: seq<string>)
    requires "__proto__" !in labels
    ensures Assigned(labels) == labels
  {
    if labels != [] {
      var n := |labels| - 1;
      assert labels == labels[..n] + [labels[n]];
      AssignedAll(labels[..n]);
    }
  }

  lemma TallyAsWrittenSnoc(l: seq<string>, x: string)
    ensures var t := TallyAsWritten(l);
      TallyAsWritten(l + [x])
        == if x == "__proto__" then t
           else if x in t then t[x := Bump(t[x])]
           else if x in ObjectPrototypeKeys then t[x := Text]
           else t[x := Number(1)]
  {
    assert (l + [x])[..|l|] == l;
  }

  /** The written dictionary has an own entry exactly for the assigned labels. */
  lemma {:induction false} TallyAsWrittenDomain(labels: seq<string>)
    ensures forall k :: k in TallyAsWritten(labels) <==> k in Assigned(labels)
  {
    if labels != [] {
      var n := |labels| - 1;
      assert labels == labels[..n] + [labels[n]];
      TallyAsWrittenDomain(labels[..n]);
      TallyAsWrittenSnoc(labels[..n], labels[n]);
      AssignedSnoc(labels[..n], labels[n]);
    }
  }

  /** Without inherited names among the labels, the written tally agrees
      with the own-key tally key for key. */
  lemma {:induction false} TallyAsWrittenAgrees(labels: seq<string>)
    requires forall i :: 0 <= i < |labels| ==> labels[i] !in ObjectPrototypeKeys
    ensures forall k :: k in TallyAsWritten(labels) <==> k in Tally(labels)
    ensures forall k :: k in Tally(labels) ==> TallyAsWritten(labels)[k] == Number(Tally(labels)[k])
  {
    if labels != [] {
      var n := |labels| - 1;
      TallyAsWrittenAgrees(labels[..n]);
    }
  }

  /** As written, one observation labelled "constructor" is not counted as
      one, and one labelled "__proto__" is not counted at all. */
  lemma PrototypeLabelsMiscounted()
    ensures TallyAsWritten(["constructor"]) == map["constructor" := Text]
    ensures TallyAsWritten(["__proto__"]) == map[]
    ensures Tally(["constructor"]) == map["constructor" := 1]
    ensures Tally(["__proto__"]) == map["__proto__" := 1]
  {
    assert ["constructor"][..0] == [];
    assert ["__proto__"][..0] == [];
  }

  /** The loop that fills `emotionCount`: it throws at the first missing
      observation; otherwise it ends with the written tally and its insertion
      order of own keys. */
  method Aggregate(items: seq<Observation>) returns (thrown: bool, counts: map<string, Count>, keys: seq<string>)
    ensures thrown <==> Missing in items
    ensures !thrown ==> counts == TallyAsWritten(LabelsOf(items)) && keys == Keys(Assigned(LabelsOf(items)))
  {
    counts, keys := map[], [];
    ghost var seen: seq<string> := [];
    var i := 0;
    while i < |items|
      invariant 0 <= i <= |items| && |seen| == i
      invariant forall j :: 0 <= j < i ==> items[j] == Labelled(seen[j])
      invariant counts == TallyAsWritten(seen) && keys == Keys(Assigned(seen))
    {
      var o := items[i];
      if o.Missing? {
        return true, counts, keys;
      }
      counts, keys := Record(counts, keys, seen, o.key);
      seen := seen + [o.key];
      i := i + 1;
    }
    assert seen == LabelsOf(items);
    thrown := false;
  }

  /** One turn of the loop: `emotionCount[x] || 0` (an own count, an
      inherited member, or 0) plus one, assigned back unless x is
      `__proto__`; a new own key goes last in insertion order. */
  method Record(counts: map<string, Count>, keys: seq<string>, ghost seen: seq<string>, x: string)
    returns (counts': map<string, Count>, keys': seq<string>)
    requires counts == TallyAsWritten(seen) && keys == Keys(Assigned(seen))
    ensures counts' == TallyAsWritten(seen + [x]) && keys' == Keys(Assigned(seen + [x]))
  {
    TallyAsWrittenSnoc(seen, x);
    AssignedSnoc(seen, x);
    TallyAsWrittenDomain(seen);
    var next: Count;
    if x in counts {
      next := Bump(counts[x]);
    } else if x in ObjectPrototypeKeys {
      next := Text;
    } else {
      next := Number(1);
    }
    if x == "__proto__" {
      assert Assigned(seen) + [] == Assigned(seen);
      counts', keys' := counts, keys;
    } else {
      KeysSnoc(Assigned(seen), x);
      keys' := keys;
      if x !in counts {
        keys' := keys + [x];
      } else {
        assert keys + [] == keys;
      }
      counts' := counts[x := next];
    }
  }

  // ---------------------------------------------------- the sort as written

  function CountValue(counts: map<string, Count>, k: string): Count {
    if k in counts then counts[k] else Number(0)
  }

  predicate AllNumbers(keys: seq<string>, counts: map<string, Count>) {
    forall i :: 0 <= i < |keys| ==> CountValue(counts, keys[i]).Number?
  }

  /** Every numeric count equal: with a text count present, `b[1] - a[1]`
      is NaN, which the sort reads as "equal", so the comparator is
      consistent only when the numeric counts are equal as well. */
  predicate NumbersEqual(keys: seq<string>, counts: map<string, Count>) {
    forall i, j :: 0 <= i < |keys| && 0 <= j < |keys|
      && CountValue(counts, keys[i]).Number? && CountValue(counts, keys[j]).Number?
      ==> CountValue(counts, keys[i]).n == CountValue(counts, keys[j]).n
  }

  function Numbers(counts: map<string, Count>): map<string, nat> {
    map k | k in counts :: if counts[k].Number? then counts[k].n else 0
  }

  /** `Object.entries(emotionCount).sort((a, b) => b[1] - a[1])[0][0]` as
      written. No entries: `[0][0]` throws (None). All counts numeric: the
      stable sort's head. A text count among equal numeric ones: every pair
      compares equal, so the first entry. Otherwise the comparator is not
      consistent; the order is the engine's own, and `choice` stands for the
      position its sort leaves first. */
  function DominantAsWritten(keys: seq<string>, counts: map<string, Count>, choice: nat): (r: Option<string>)
    ensures r.None? <==> keys == []
    ensures r.Some? ==> r.value in keys
    ensures keys != [] && AllNumbers(keys, counts) ==>
      && r == Some(Dominant(keys, Numbers(counts)))
      && forall k :: k in keys ==> CountOf(Numbers(counts), k) <= CountOf(Numbers(counts), r.value)
    ensures keys != [] && !AllNumbers(keys, counts) && NumbersEqual(keys, counts) ==> r == Some(EntryOrder(keys)[0])
  {
    if keys == [] then None
    else
      var e := EntryOrder(keys);
      assert keys[0] in e;
      if AllNumbers(keys, counts) then
        DominantFirstMaximal(keys, Numbers(counts));
        Some(Dominant(keys, Numbers(counts)))
      else if NumbersEqual(keys, counts) then Some(e[0])
      else Some(e[choice % |e|])
  }

  /** Without inherited names, every assigned label is its own key with a
      numeric count, and those counts are the own-key tally. */
  lemma WrittenTallyIsNumeric(labels: seq<string>)
    requires forall i :: 0 <= i < |labels| ==> labels[i] !in ObjectPrototypeKeys
    ensures Assigned(labels) == labels
    ensures AllNumbers(Keys(labels), TallyAsWritten(labels))
    ensures Numbers(TallyAsWritten(labels)) == Tally(labels)
  {
    ProtoIsInherited(labels);
    AssignedAll(labels);
    TallyAsWrittenAgrees(labels);
    NumericKeys(labels, TallyAsWritten(labels), Tally(labels));
    NumbersOfAgreeing(TallyAsWritten(labels), Tally(labels));
  }

  lemma NumericKeys(labels: seq<string>, t: map<string, Count>, tally: map<string, nat>)
    requires tally == Tally(labels)
    requires forall k :: k in tally ==> k in t && t[k] == Number(tally[k])
    ensures AllNumbers(Keys(labels), t)
  {
    var keys := Keys(labels);
    forall i | 0 <= i < |keys| ensures CountValue(t, keys[i]).Number? {
      assert keys[i] in labels;
    }
  }

  lemma NumbersOfAgreeing(t: map<string, Count>, tally: map<string, nat>)
    requires forall k :: k in t <==> k in tally
    requires forall k :: k in tally ==> t[k] == Number(tally[k])
    ensures Numbers(t) == tally
  {
  }

  lemma ProtoIsInherited(labels: seq<string>)
    requires forall i :: 0 <= i < |labels| ==> labels[i] !in ObjectPrototypeKeys
    ensures "__proto__" !in labels
  {
    assert "__proto__" in ObjectPrototypeKeys;
  }

  /** Without inherited names among the labels, the written route's dominant
      label is the one the fair tally names, so every property of `Dominant`
      over `Tally` holds of the route as written. */
  lemma DominantAsWrittenAgrees(labels: seq<string>, choice: nat)
    requires labels != []
    requires forall i :: 0 <= i < |labels| ==> labels[i] !in ObjectPrototypeKeys
    ensures DominantAsWritten(Keys(Assigned(labels)), TallyAsWritten(labels), choice)
            == Some(Dominant(Keys(labels), Tally(labels)))
  {
    WrittenTallyIsNumeric(labels);
    AgreesWhenNumeric(labels, choice);
  }

  lemma AgreesWhenNumeric(labels: seq<string>, choice: nat)
    requires labels != [] && Assigned(labels) == labels
    requires AllNumbers(Keys(labels), TallyAsWritten(labels)) && Numbers(TallyAsWritten(labels)) == Tally(labels)
    ensures DominantAsWritten(Keys(Assigned(labels)), TallyAsWritten(labels), choice)
            == Some(Dominant(Keys(labels), Tally(labels)))
  {
    assert labels[0] in Keys(labels);
  }

  // ------------------------------------------------------------- the route

  /** `POST /api/get-support` up to the dominant label; the language-model
      reply that follows is taken to succeed. */
  function SupportReply(geminiKey: string, body: SupportBody, choice: nat): Reply {
    if geminiKey == "" then Reply(500, Failure("Missing GEMINI_API_KEY"))
    else match body
      case Unparseable => Reply(500, ServerError)
      case NullBody => Reply(500, ServerError)
      case Object(obs) =>
        if obs.NotArray? || obs.items == [] then Reply(400, Failure("No observations provided"))
        else if Missing in obs.items then Reply(500, ServerError)
        else
          var labels := LabelsOf(obs.items);
          match DominantAsWritten(Keys(Assigned(labels)), TallyAsWritten(labels), choice)
          case None => Reply(500, ServerError)
          case Some(d) => Reply(200, Support(d))
  }

  /** The route handler. */
  method Post(geminiKey: string, body: SupportBody, choice: nat) returns (reply: Reply)
    ensures reply == SupportReply(geminiKey, body, choice)
  {
    if geminiKey == "" {
      return Reply(500, Failure("Missing GEMINI_API_KEY"));
    }
    if !body.Object? {
      return Reply(500, ServerError);
    }
    var obs := body.observations;
    if obs.NotArray? || |obs.items| == 0 {
      return Reply(400, Failure("No observations provided"));
    }
    var thrown, counts, keys := Aggregate(obs.items);
    if thrown {
      return Reply(500, ServerError);
    }
    var d := DominantAsWritten(keys, counts, choice);
    if d.None? {
      return Reply(500, ServerError);
    }
    reply := Reply(200, Support(d.value));
  }

  /** A successful reply names one of the labels, never `__proto__`; when no
      label names an inherited member it is a most frequent label, counted
      fairly. */
  lemma SupportNamesMostFrequent(geminiKey: string, body: SupportBody, choice: nat)
    requires SupportReply(geminiKey, body, choice).status == 200
    ensures var labels := LabelsOf(body.observations.items);
      var d := SupportReply(geminiKey, body, choice).body.dominantEmotion;
      && geminiKey != "" && labels != []
      && d in labels && d != "__proto__"
      && ((forall i :: 0 <= i < |labels| ==> labels[i] !in ObjectPrototypeKeys) ==>
            forall k :: k in labels ==> Occurrences(labels, k) <= Occurrences(labels, d))
  {
    var labels := LabelsOf(body.observations.items);
    var keys, counts := Keys(Assigned(labels)), TallyAsWritten(labels);
    var d := SupportReply(geminiKey, body, choice).body.dominantEmotion;
    AssignedMembers(labels);
    if AllNumbers(keys, counts) {
      DominantFirstMaximal(keys, Numbers(counts));
    }
    assert d in keys;
    if forall i :: 0 <= i < |labels| ==> labels[i] !in ObjectPrototypeKeys {
      WrittenTallyIsNumeric(labels);
      DominantIsMostFrequent(labels);
    }
  }

  /** Observations that are all labelled `__proto__` leave the dictionary
      without entries, so `[0][0]` throws and the route answers 500. */
  lemma ProtoLabelsAreServerError(geminiKey: string, items: seq<Observation>, choice: nat)
    requires geminiKey != "" && items != []
    requires forall i :: 0 <= i < |items| ==> items[i] == Labelled("__proto__")
    ensures SupportReply(geminiKey, Object(Items(items)), choice) == Reply(500, ServerError)
  {
    AssignedNone(LabelsOf(items));
  }

  lemma {:induction false} AssignedNone(labels: seq<string>)
    requires forall i :: 0 <= i < |labels| ==> labels[i] == "__proto__"
    ensures Assigned(labels) == []
  {
    if labels != [] {
      AssignedNone(labels[..|labels| - 1]);
    }
  }

  /** As written, one "constructor" outranks two "a": its text count compares
      equal to every count, so the first entry stays first. */
  lemma ConstructorOutranksMajority(geminiKey: string, choice: nat)
    requires geminiKey != ""
    ensures var labels := ["constructor", "a", "a"];
      && Occurrences(labels, "constructor") < Occurrences(labels, "a")
      && SupportReply(geminiKey, Object(Items([Labelled("constructor"), Labelled("a"), Labelled("a")])), choice)
         == Reply(200, Support("constructor"))
  {
    var items := [Labelled("constructor"), Labelled("a"), Labelled("a")];
    var labels := ["constructor", "a", "a"];
    ConstructorOccurrences();
    ConstructorLabels();
    ConstructorTally();
    ConstructorDominant(choice);
    assert DominantAsWritten(Keys(Assigned(LabelsOf(items))), TallyAsWritten(LabelsOf(items)), choice) == Some("constructor");
    NamedByDominant(geminiKey, items, choice, "constructor");
  }

  lemma NamedByDominant(geminiKey: string, items: seq<Observation>, choice: nat, d: string)
    requires geminiKey != "" && items != [] && Missing !in items
    requires DominantAsWritten(Keys(Assigned(LabelsOf(items))), TallyAsWritten(LabelsOf(items)), choice) == Some(d)
    ensures SupportReply(geminiKey, Object(Items(items)), choice) == Reply(200, Support(d))
  {
    var obs := Items(items);
    assert !obs.NotArray? && obs.items != [] && Missing !in obs.items;
  }

  lemma ConstructorLabels()
    ensures var items := [Labelled("constructor"), Labelled("a"), Labelled("a")];
      Missing !in items && LabelsOf(items) == ["constructor", "a", "a"]
  {
    var items := [Labelled("constructor"), Labelled("a"), Labelled("a")];
    assert items[0] != Missing && items[1] != Missing && items[2] != Missing;
  }

  lemma ConstructorDominant(choice: nat)
    ensures DominantAsWritten(["constructor", "a"], map["constructor" := Text, "a" := Number(2)], choice)
         == Some("constructor")
  {
    var keys, counts := ["constructor", "a"], map["constructor" := Text, "a" := Number(2)];
    assert !AllNumbers(keys, counts) by {
      assert CountValue(counts, keys[0]) == Text;
    }
    assert NumbersEqual(keys, counts);
    assert !IsArrayIndex("constructor") && !IsArrayIndex("a");
    EntryOrderPlain(keys);
  }

  lemma ConstructorTally()
    ensures var labels := ["constructor", "a", "a"];
      && Keys(Assigned(labels)) == ["constructor", "a"]
      && TallyAsWritten(labels) == map["constructor" := Text, "a" := Number(2)]
  {
    var labels := ["constructor", "a", "a"];
    assert labels == ["constructor", "a"] + ["a"] && ["constructor", "a"] == ["constructor"] + ["a"];
    assert ["constructor"] == [] + ["constructor"];
    ConstructorInherited();
    AssignedAll(labels);
    ConstructorKeys();
    ConstructorWrittenTally();
  }

  lemma ConstructorOccurrences()
    ensures Occurrences(["constructor", "a", "a"], "constructor") == 1
    ensures Occurrences(["constructor", "a", "a"], "a") == 2
  {
    assert ["constructor", "a", "a"] == ["constructor", "a"] + ["a"];
    assert ["constructor", "a"] == ["constructor"] + ["a"];
    assert ["constructor"] == [] + ["constructor"];
    OccurrencesSnoc([], "constructor", "constructor");
    OccurrencesSnoc(["constructor"], "a", "constructor");
    OccurrencesSnoc(["constructor", "a"], "a", "constructor");
    OccurrencesSnoc([], "constructor", "a");
    OccurrencesSnoc(["constructor"], "a", "a");
    OccurrencesSnoc(["constructor", "a"], "a", "a");
  }

  lemma ConstructorInherited()
    ensures "constructor" in ObjectPrototypeKeys && "a" !in ObjectPrototypeKeys && "__proto__" != "a"
  {
  }

  lemma ConstructorKeys()
    ensures Keys(["constructor", "a", "a"]) == ["constructor", "a"]
  {
    assert Keys(["constructor"]) == ["constructor"] by {
      assert ["constructor"] == [] + ["constructor"];
      KeysSnoc([], "constructor");
    }
    assert Keys(["constructor", "a"]) == ["constructor", "a"] by {
      assert ["constructor", "a"] == ["constructor"] + ["a"];
      assert "a" !in ["constructor"];
      KeysSnoc(["constructor"], "a");
    }
    assert ["constructor", "a", "a"] == ["constructor", "a"] + ["a"];
    assert "a" in ["constructor", "a"];
    KeysSnoc(["constructor", "a"], "a");
  }

  lemma ConstructorWrittenTally()
    ensures TallyAsWritten(["constructor", "a", "a"]) == map["constructor" := Text, "a" := Number(2)]
  {
    ConstructorInherited();
    assert ["constructor", "a", "a"] == ["constructor", "a"] + ["a"];
    assert ["constructor", "a"] == ["constructor"] + ["a"];
    assert ["constructor"] == [] + ["constructor"];
    TallyAsWrittenSnoc([], "constructor");
    TallyAsWrittenSnoc(["constructor"], "a");
    TallyAsWrittenSnoc(["constructor", "a"], "a");
  }

  /** The input checks come first: a missing model key gives 500 whatever
      the body, and an empty or non-array `observations` gives 400. */
  lemma InputChecksFirst(geminiKey: string, body: SupportBody, choice: nat)
    ensures geminiKey == "" ==> SupportReply(geminiKey, body, choice) == Reply(500, Failure("Missing GEMINI_API_KEY"))
    ensures geminiKey != "" && body.Object? && (body.observations.NotArray? || body.observations.items == [])
            ==> SupportReply(geminiKey, body, choice).status == 400
  {
  }
}
