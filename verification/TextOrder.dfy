/**
 * Text as a sequence of UTF-16 code units, its lexicographic order (the order of
 * Array.prototype.sort), and sorting lists of distinct texts.
 */
module TextOrder {

  type Unit = u: int | 0 <= u < 0x1_0000
  type Text = seq<Unit>

  predicate Less(a: Text, b: Text) {
    if b == [] then false
    else if a == [] then true
    else a[0] < b[0] || (a[0] == b[0] && Less(a[1..], b[1..]))
  }

  lemma {:induction false} LessIsTotal(a: Text, b: Text)
    ensures (Less(a, b) || Less(b, a)) <==> a != b
    ensures !(Less(a, b) && Less(b, a))
  {
    if a != [] && b != [] && a[0] == b[0] {
      LessIsTotal(a[1..], b[1..]);
      assert a == [a[0]] + a[1..] && b == [b[0]] + b[1..];
    }
  }

  lemma {:induction false} LessIsTransitive(a: Text, b: Text, c: Text)
    requires Less(a, b) && Less(b, c)
    ensures Less(a, c)
  {
    if a != [] && a[0] == b[0] == c[0] {
      LessIsTransitive(a[1..], b[1..], c[1..]);
    }
  }

  /** Strictly ascending: sorted, and no text twice. */
  predicate Ascending(s: seq<Text>) {
    forall i, j :: 0 <= i < j < |s| ==> Less(s[i], s[j])
  }

  predicate Distinct(s: seq<Text>) {
    forall i, j :: 0 <= i < j < |s| ==> s[i] != s[j]
  }

  function Insert(s: seq<Text>, t: Text): (r: seq<Text>)
    ensures |r| == |s| + 1
    ensures forall u :: u in r <==> u in s || u == t
  {
    if s == [] then [t]
    else if Less(t, s[0]) then [t] + s
    else
      var rest := Insert(s[1..], t);
      assert forall u :: u in s <==> u == s[0] || u in s[1..];
      [s[0]] + rest
  }

  function Sort(s: seq<Text>): (r: seq<Text>)
    ensures |r| == |s|
    ensures forall u :: u in r <==> u in s
  {
    if s == [] then []
    else
      assert forall u :: u in s <==> u == s[0] || u in s[1..];
      Insert(Sort(s[1..]), s[0])
  }

  lemma {:induction false} InsertAscends(s: seq<Text>, t: Text)
    requires Ascending(s) && t !in s
    ensures Ascending(Insert(s, t))
  {
    hide Less;
    if s != [] {
      LessIsTotal(t, s[0]);
      var r := Insert(s, t);
      if Less(t, s[0]) {
        forall i, j | 0 <= i < j < |r| ensures Less(r[i], r[j]) {
          if i == 0 && j > 1 {
            LessIsTransitive(t, s[0], s[j - 1]);
          }
        }
      } else {
        InsertAscends(s[1..], t);
        var rest := Insert(s[1..], t);
        forall i, j | 0 <= i < j < |r| ensures Less(r[i], r[j]) {
          assert r[j] == rest[j - 1];
          if i == 0 {
            assert rest[j - 1] in rest;
          }
        }
      }
    }
  }

  lemma {:induction false} SortAscends(s: seq<Text>)
    requires Distinct(s)
    ensures Ascending(Sort(s))
  {
    if s != [] {
      SortAscends(s[1..]);
      InsertAscends(Sort(s[1..]), s[0]);
    }
  }

  lemma {:induction false} AscendingIsDistinct(s: seq<Text>)
    requires Ascending(s)
    ensures Distinct(s)
  {
    forall i, j | 0 <= i < j < |s| ensures s[i] != s[j] {
      LessIsTotal(s[i], s[j]);
    }
  }

  /** The head of an ascending list is below everything after it. */
  lemma {:induction false} HeadIsLeast(s: seq<Text>, t: Text)
    requires Ascending(s) && s != [] && t in s
    ensures t == s[0] || Less(s[0], t)
    ensures t in s[1..] <==> t != s[0]
  {
    hide Less;
    LessIsTotal(s[0], t);
    forall k | 1 <= k < |s| ensures s[k] != s[0] {
      LessIsTotal(s[0], s[k]);
    }
  }

  /** A set of texts has only one ascending list. */
  lemma {:induction false} AscendingIsUnique(a: seq<Text>, b: seq<Text>)
    requires Ascending(a) && Ascending(b)
    requires forall t :: t in a <==> t in b
    ensures a == b
  {
    hide Less;
    assert |a| > 0 ==> a[0] in b;
    assert |b| > 0 ==> b[0] in a;
    if a != [] && b != [] {
      HeadIsLeast(a, b[0]);
      HeadIsLeast(b, a[0]);
      LessIsTotal(a[0], b[0]);
      forall t ensures t in a[1..] <==> t in b[1..] {
        if t in a { HeadIsLeast(a, t); HeadIsLeast(b, t); }
      }
      AscendingIsUnique(a[1..], b[1..]);
      assert a == [a[0]] + a[1..] && b == [b[0]] + b[1..];
    }
  }

  /** Sorting a list that is already ascending changes nothing. */
  lemma {:induction false} SortIsIdentityOnAscending(s: seq<Text>)
    requires Ascending(s)
    ensures Sort(s) == s
  {
    AscendingIsDistinct(s);
    SortAscends(s);
    AscendingIsUnique(Sort(s), s);
  }
}
