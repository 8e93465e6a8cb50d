/** The label pieces of the Account screen: the `selectedLabels` object
    (label -> flag, in insertion order), the checkbox toggle, the list of
    suggested labels sent with an upload and shown in the comparison dialog,
    and the matched/unmatched marking of that dialog. */
module Labels {

  /** One key of the `selectedLabels` object with its flag. A JavaScript
      object keeps its string keys in insertion order, so the object is a
      sequence of entries with distinct keys. */
  type Entry = (string, bool)

  /** The keys of the object, in insertion order (`Object.keys`). */
  function Keys(e: seq<Entry>): (ks: seq<string>)
    ensures |ks| == |e|
    ensures forall i :: 0 <= i < |e| ==> ks[i] == e[i].0
  {
    if e == [] then [] else [e[0].0] + Keys(e[1..])
  }

  predicate Distinct(s: seq<string>) {
    forall i, j :: 0 <= i < j < |s| ==> s[i] != s[j]
  }

  predicate DistinctKeys(e: seq<Entry>) {
    Distinct(Keys(e))
  }

  /** `selectedLabels[key] || false`: an absent key reads as false. */
  function Flag(e: seq<Entry>, key: string): (flag: bool)
    ensures key !in Keys(e) ==> !flag
    ensures key in Keys(e) ==> (key, flag) in e
  {
    if e == [] then false
    else if e[0].0 == key then e[0].1
    else Flag(e[1..], key)
  }

  /** The updater of `handleLabelChange`: `{...prev, [key]: !prev[key]}`.
      An existing key keeps its position; a new key goes last with
      `!undefined`, that is true. */
  function Toggle(e: seq<Entry>, key: string): (t: seq<Entry>)
    ensures |t| == if key in Keys(e) then |e| else |e| + 1
  {
    if e == [] then [(key, true)]
    else if e[0].0 == key then [(key, !e[0].1)] + e[1..]
    else [e[0]] + Toggle(e[1..], key)
  }

  /** `Object.values(selectedLabels).some(v => v)`. */
  predicate AnySelected(e: seq<Entry>): (any: bool)
    ensures DistinctKeys(e) ==> (any <==> exists i :: 0 <= i < |e| && Flag(e, e[i].0))
  {
    FlagOfKeys(e);
    exists i :: 0 <= i < |e| && e[i].1
  }

  /** With distinct keys, reading a key gives the flag stored with it. */
  lemma {:induction false} FlagOfKeys(e: seq<Entry>)
    ensures DistinctKeys(e) ==> forall i :: 0 <= i < |e| ==> Flag(e, e[i].0) == e[i].1
  {
    if e != [] && DistinctKeys(e) {
      DistinctKeysOfTail(e);
      FlagOfKeys(e[1..]);
      forall i | 0 < i < |e| ensures Flag(e, e[i].0) == e[i].1 {
        assert Keys(e)[i] != Keys(e)[0];
        assert e[1..][i - 1] == e[i];
      }
    }
  }

  /** Dropping the first entry keeps the keys distinct, and the first key
      does not occur again. */
  lemma DistinctKeysOfTail(e: seq<Entry>)
    requires e != [] && DistinctKeys(e)
    ensures DistinctKeys(e[1..])
    ensures e[0].0 !in Keys(e[1..])
  {
    var tail := e[1..];
    forall i, j | 0 <= i < j < |tail| ensures Keys(tail)[i] != Keys(tail)[j] {
      assert Keys(tail)[i] == Keys(e)[i + 1] && Keys(tail)[j] == Keys(e)[j + 1];
    }
    forall j | 0 <= j < |tail| ensures Keys(tail)[j] != e[0].0 {
      assert Keys(tail)[j] == Keys(e)[j + 1] && Keys(e)[0] == e[0].0;
    }
  }

  /** `Object.entries(selectedLabels).filter(([_, s]) => s).map(([l]) => l)`. */
  function Suggested(e: seq<Entry>): (s: seq<string>)
    ensures |s| <= |e|
    ensures forall i :: 0 <= i < |s| ==> s[i] in Keys(e)
  {
    if e == [] then []
    else if e[0].1 then [e[0].0] + Suggested(e[1..])
    else Suggested(e[1..])
  }

  /** `a` occurs in `b` in the same order, possibly with gaps. */
  predicate IsSubsequence(a: seq<string>, b: seq<string>)
    decreases |b|
  {
    a == [] || (b != [] && if a[0] == b[0] then IsSubsequence(a[1..], b[1..]) else IsSubsequence(a, b[1..]))
  }

  lemma {:induction false} FlagOfAbsent(e: seq<Entry>, key: string)
    requires key !in Keys(e)
    ensures !Flag(e, key)
  {
    if e != [] {
      assert Keys(e)[0] == e[0].0;
      assert Keys(e[1..]) == Keys(e)[1..];
      FlagOfAbsent(e[1..], key);
    }
  }

  /** Toggling flips the toggled key's flag (absent counting as false) and
      leaves every other key's flag as it was. */
  lemma {:induction false} ToggleFlipsOnlyThatLabel(e: seq<Entry>, key: string, other: string)
    ensures Flag(Toggle(e, key), key) == !Flag(e, key)
    ensures other != key ==> Flag(Toggle(e, key), other) == Flag(e, other)
  {
    if e != [] && e[0].0 != key {
      ToggleFlipsOnlyThatLabel(e[1..], key, other);
    }
  }

  /** Toggling keeps the key order: a known key stays where it is, a new
      key is appended. */
  lemma {:induction false} ToggleKeepsKeyOrder(e: seq<Entry>, key: string)
    ensures Keys(Toggle(e, key)) == if key in Keys(e) then Keys(e) else Keys(e) + [key]
  {
    if e != [] {
      assert Keys(e) == [e[0].0] + Keys(e[1..]);
      if e[0].0 != key {
        ToggleKeepsKeyOrder(e[1..], key);
        assert Keys(Toggle(e, key)) == [e[0].0] + Keys(Toggle(e[1..], key));
      }
    }
  }

  /** Toggling keeps the keys distinct, so the sequence stays a faithful
      picture of a JavaScript object. */
  lemma ToggleKeepsDistinct(e: seq<Entry>, key: string)
    requires DistinctKeys(e)
    ensures DistinctKeys(Toggle(e, key))
  {
    ToggleKeepsKeyOrder(e, key);
    var ks := Keys(e);
    if key !in ks {
      var ks' := ks + [key];
      forall i, j | 0 <= i < j < |ks'| ensures ks'[i] != ks'[j] {
        if j == |ks| { assert ks'[i] == ks[i]; }
      }
    }
  }

  lemma {:induction false} SuggestedAreKeys(e: seq<Entry>, x: string)
    requires x in Suggested(e)
    ensures x in Keys(e)
  {
    assert e != [];
    assert Keys(e) == [e[0].0] + Keys(e[1..]);
    if !(e[0].1 && x == e[0].0) {
      SuggestedAreKeys(e[1..], x);
    }
  }

  /** A key is suggested exactly when its flag is true. */
  lemma {:induction false} SuggestedIffFlag(e: seq<Entry>, x: string)
    requires DistinctKeys(e)
    ensures x in Suggested(e) <==> Flag(e, x)
  {
    if e != [] {
      var ks := Keys(e);
      assert ks == [e[0].0] + Keys(e[1..]);
      assert Keys(e[1..]) == ks[1..];
      assert DistinctKeys(e[1..]);
      if e[0].0 == x {
        assert x !in Keys(e[1..]) by {
          forall j | 0 <= j < |ks| - 1 ensures ks[1..][j] != x {
            assert ks[1..][j] == ks[j + 1];
            assert ks[0] == x && Distinct(ks);
            assert ks[0] != ks[j + 1];
          }
        }
        FlagOfAbsent(e[1..], x);
        if x in Suggested(e[1..]) { SuggestedAreKeys(e[1..], x); }
      } else {
        SuggestedIffFlag(e[1..], x);
      }
    }
  }

  /** The suggested list holds exactly the labels whose flag is true. */
  lemma SuggestedElements(e: seq<Entry>)
    ensures DistinctKeys(e) ==> forall x :: x in Elements(Suggested(e)) <==> Flag(e, x)
  {
    if DistinctKeys(e) {
      forall x ensures x in Elements(Suggested(e)) <==> Flag(e, x) {
        SuggestedIffFlag(e, x);
        assert x in Suggested(e) <==> x in Elements(Suggested(e));
      }
    }
  }

  /** With distinct keys no label is suggested twice. */
  lemma {:induction false} SuggestedDistinct(e: seq<Entry>)
    requires DistinctKeys(e)
    ensures Distinct(Suggested(e))
  {
    if e != [] {
      var tail := e[1..];
      DistinctKeysOfTail(e);
      SuggestedDistinct(tail);
      if e[0].1 {
        var rest := Suggested(tail);
        assert Suggested(e) == [e[0].0] + rest;
        if e[0].0 in rest {
          SuggestedAreKeys(tail, e[0].0);
        }
        DistinctCons(e[0].0, rest);
      }
    }
  }

  lemma DistinctCons(x: string, rest: seq<string>)
    requires Distinct(rest) && x !in rest
    ensures Distinct([x] + rest)
  {
    var s := [x] + rest;
    forall i, j | 0 <= i < j < |s| ensures s[i] != s[j] {
      assert s[j] == rest[j - 1];
      if i > 0 { assert s[i] == rest[i - 1]; }
    }
  }

  /** The suggested labels come in key (insertion) order. */
  lemma {:induction false} SuggestedInKeyOrder(e: seq<Entry>)
    ensures IsSubsequence(Suggested(e), Keys(e))
  {
    if e != [] {
      assert Keys(e) == [e[0].0] + Keys(e[1..]);
      SuggestedInKeyOrder(e[1..]);
      if !e[0].1 {
        SubsequenceOfTail(Suggested(e[1..]), Keys(e[1..]), e[0].0);
      }
    }
  }

  /** Putting one more element in front of `b` keeps `a` a subsequence. */
  lemma {:induction false} SubsequenceOfTail(a: seq<string>, b: seq<string>, x: string)
    requires IsSubsequence(a, b)
    ensures IsSubsequence(a, [x] + b)
    decreases |b|, 1
  {
    assert ([x] + b)[1..] == b;
    if a != [] && a[0] == x {
      SubsequenceDropHead(a, b);
    }
  }

  lemma {:induction false} SubsequenceDropHead(a: seq<string>, b: seq<string>)
    requires a != [] && IsSubsequence(a, b)
    ensures IsSubsequence(a[1..], b)
    decreases |b|, 0
  {
    assert b == [b[0]] + b[1..];
    if a[0] != b[0] {
      SubsequenceDropHead(a, b[1..]);
    }
    SubsequenceOfTail(a[1..], b[1..], b[0]);
  }

  /** The Next button is enabled exactly when the suggested list is not empty. */
  lemma {:induction false} AnySelectedIffSuggestions(e: seq<Entry>)
    ensures AnySelected(e) <==> Suggested(e) != []
  {
    if e != [] {
      AnySelectedIffSuggestions(e[1..]);
      if AnySelected(e[1..]) {
        var i :| 0 <= i < |e[1..]| && e[1..][i].1;
        assert e[i + 1].1;
      }
      if AnySelected(e) && !e[0].1 {
        var i :| 0 <= i < |e| && e[i].1;
        assert e[1..][i - 1].1;
      }
    }
  }

  /** How the comparison dialog colours a key: `success.main` with a tick
      when matched, otherwise `error.main` on the suggested side and
      `text.primary` on the detected side. */
  datatype Tone = Success | Error | Plain

  /** The suggested column: every suggested key in its input order. */
  function SuggestedRows(suggested: seq<string>, detected: seq<string>): (rows: seq<(string, Tone)>)
    ensures |rows| == |suggested|
    ensures forall i :: 0 <= i < |rows| ==>
      rows[i].0 == suggested[i] && (rows[i].1 == Success <==> suggested[i] in detected) &&
      (rows[i].1 == Success || rows[i].1 == Error)
  {
    if suggested == [] then []
    else [(suggested[0], if suggested[0] in detected then Success else Error)] + SuggestedRows(suggested[1..], detected)
  }

  /** The detected column: every detected key in its input order. */
  function DetectedRows(detected: seq<string>, suggested: seq<string>): (rows: seq<(string, Tone)>)
    ensures |rows| == |detected|
    ensures forall i :: 0 <= i < |rows| ==>
      rows[i].0 == detected[i] && (rows[i].1 == Success <==> detected[i] in suggested) &&
      (rows[i].1 == Success || rows[i].1 == Plain)
  {
    if detected == [] then []
    else [(detected[0], if detected[0] in suggested then Success else Plain)] + DetectedRows(detected[1..], suggested)
  }

  /** The labels a column shows with a tick. */
  function Matched(rows: seq<(string, Tone)>): set<string> {
    set i | 0 <= i < |rows| && rows[i].1 == Success :: rows[i].0
  }

  function Elements(s: seq<string>): set<string> {
    set i | 0 <= i < |s| :: s[i]
  }

  /** Both columns tick exactly the labels that are both suggested and
      detected. */
  lemma BothColumnsMatchIntersection(suggested: seq<string>, detected: seq<string>)
    ensures Matched(SuggestedRows(suggested, detected)) == Elements(suggested) * Elements(detected)
    ensures Matched(DetectedRows(detected, suggested)) == Elements(suggested) * Elements(detected)
  {
    var both := Elements(suggested) * Elements(detected);
    var left := SuggestedRows(suggested, detected);
    var right := DetectedRows(detected, suggested);
    forall x | x in both ensures x in Matched(left) && x in Matched(right) {
      var i :| 0 <= i < |suggested| && suggested[i] == x;
      var j :| 0 <= j < |detected| && detected[j] == x;
      assert left[i].0 == x && left[i].1 == Success;
      assert right[j].0 == x && right[j].1 == Success;
    }
    forall x | x in Matched(left) ensures x in both {
      var i :| 0 <= i < |left| && left[i].1 == Success && left[i].0 == x;
      assert suggested[i] == x;
    }
    forall x | x in Matched(right) ensures x in both {
      var j :| 0 <= j < |right| && right[j].1 == Success && right[j].0 == x;
      assert detected[j] == x;
    }
  }
}
