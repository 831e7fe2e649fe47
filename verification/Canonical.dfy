/** `stableValue`: the canonical form whose printed hash identifies a bundle. */
module Canonical {
  import opened Schema

  type Field = (string, Json)

  // -------------------------------------------------------------------- key order

  /** The order of strings by their characters. JavaScript's `<` goes by code units, which
      differs where a character above U+FFFF meets one from U+E000 on; what follows holds for
      either, as it uses no more of the order than that it is total and transitive. */
  predicate Less(a: string, b: string) {
    if b == "" then false
    else if a == "" then true
    else a[0] < b[0] || (a[0] == b[0] && Less(a[1..], b[1..]))
  }

  predicate AllDigits(s: string) {
    forall i :: 0 <= i < |s| ==> '0' <= s[i] <= '9'
  }

  /** An array index: a decimal without leading zeros, below 2^32 - 1. */
  predicate IsIndex(key: string) {
    && key != "" && AllDigits(key) && (|key| > 1 ==> key[0] != '0')
    && (|key| < 10 || (|key| == 10 && Less(key, "4294967295")))
  }

  /** The order in which an object built from sorted entries lists its members: array
      indices by value, then the other keys as sorted. */
  predicate Before(a: string, b: string) {
    if IsIndex(a) && IsIndex(b) then |a| < |b| || (|a| == |b| && Less(a, b))
    else if IsIndex(a) then true
    else if IsIndex(b) then false
    else Less(a, b)
  }

  lemma {:induction false} LessIsTotal(a: string, b: string)
    ensures (if Less(a, b) then 1 else 0) + (if a == b then 1 else 0) + (if Less(b, a) then 1 else 0) == 1
    decreases |a|
  {
    if a != "" && b != "" && a[0] == b[0] {
      LessIsTotal(a[1..], b[1..]);
      assert a == [a[0]] + a[1..] && b == [b[0]] + b[1..];
    }
  }

  lemma {:induction false} LessIsTransitive(a: string, b: string, c: string)
    requires Less(a, b) && Less(b, c)
    ensures Less(a, c)
    decreases |a|
  {
    if a != "" && a[0] == b[0] == c[0] {
      LessIsTransitive(a[1..], b[1..], c[1..]);
    }
  }

  lemma BeforeIsTotal(a: string, b: string)
    ensures (if Before(a, b) then 1 else 0) + (if a == b then 1 else 0) + (if Before(b, a) then 1 else 0) == 1
  {
    LessIsTotal(a, b);
  }

  lemma BeforeIsTransitive(a: string, b: string, c: string)
    requires Before(a, b) && Before(b, c)
    ensures Before(a, c)
  {
    if Less(a, b) && Less(b, c) { LessIsTransitive(a, b, c); }
  }

  // ------------------------------------------------------------------ stable values

  function Insert(field: Field, fields: seq<Field>): (r: seq<Field>)
    ensures multiset(r) == multiset{field} + multiset(fields)
  {
    if fields == [] then [field]
    else if Before(fields[0].0, field.0) then
      assert fields == [fields[0]] + fields[1..];
      [fields[0]] + Insert(field, fields[1..])
    else [field] + fields
  }

  function Sort(fields: seq<Field>): (r: seq<Field>)
    ensures multiset(r) == multiset(fields)
  {
    if fields == [] then []
    else
      assert fields == [fields[0]] + fields[1..];
      Insert(fields[0], Sort(fields[1..]))
  }

  function Stable(j: Json): Json
    decreases j
  {
    match j
    case Arr(items) => Arr(StableItems(items))
    case Obj(fields) => Obj(Sort(StableFields(fields)))
    case _ => j
  }

  function StableItems(items: seq<Json>): (r: seq<Json>)
    ensures |r| == |items| && forall i :: 0 <= i < |items| ==> r[i] == Stable(items[i])
    decreases items
  {
    if items == [] then [] else [Stable(items[0])] + StableItems(items[1..])
  }

  function StableFields(fields: seq<Field>): (r: seq<Field>)
    ensures |r| == |fields|
    decreases fields
  {
    if fields == [] then []
    else
      var field := fields[0];
      assert field.1 < field;
      [(field.0, Stable(field.1))] + StableFields(fields[1..])
  }

  // ----------------------------------------------------------- equal up to key order

  predicate HasDistinctKeys(fields: seq<Field>) {
    forall i, j :: 0 <= i < j < |fields| ==> fields[i].0 != fields[j].0
  }

  /** A parsed document: no object has a key twice. */
  ghost predicate IsDocument(j: Json)
    decreases j
  {
    match j
    case Arr(items) => forall i :: 0 <= i < |items| ==> IsDocument(items[i])
    case Obj(fields) =>
      HasDistinctKeys(fields)
      && forall i :: 0 <= i < |fields| ==>
           var field := fields[i];
           assert field.1 < field;
           IsDocument(field.1)
    case _ => true
  }

  /** The same value when the order of keys, at every depth, does not count. */
  ghost predicate Same(a: Json, b: Json)
    decreases a
  {
    match (a, b)
    case (Arr(s), Arr(t)) => |s| == |t| && forall i :: 0 <= i < |s| ==> Same(s[i], t[i])
    case (Obj(f), Obj(g)) =>
      |f| == |g| && forall i :: 0 <= i < |f| ==> HasSame(f[i], g)
    case _ => a == b
  }

  ghost predicate HasSame(field: Field, g: seq<Field>)
    decreases field
  {
    exists j :: 0 <= j < |g| && g[j].0 == field.0 && Same(field.1, g[j].1)
  }

  // ---------------------------------------------------------------------- sorting

  predicate IsSorted(fields: seq<Field>) {
    forall i, j :: 0 <= i < j < |fields| ==> Before(fields[i].0, fields[j].0)
  }

  lemma PrependKeepsSorted(field: Field, fields: seq<Field>)
    requires IsSorted(fields) && forall f :: f in fields ==> Before(field.0, f.0)
    ensures IsSorted([field] + fields)
  {}

  lemma InsertedMembers(field: Field, fields: seq<Field>)
    ensures forall f :: f in Insert(field, fields) ==> f == field || f in fields
  {}

  lemma {:induction false} InsertKeepsSorted(field: Field, fields: seq<Field>)
    requires IsSorted(fields) && forall f :: f in fields ==> f.0 != field.0
    ensures IsSorted(Insert(field, fields))
    decreases |fields|
  {
    if fields != [] {
      BeforeIsTotal(fields[0].0, field.0);
      if Before(fields[0].0, field.0) {
        InsertKeepsSorted(field, fields[1..]);
        InsertedMembers(field, fields[1..]);
        PrependKeepsSorted(fields[0], Insert(field, fields[1..]));
      } else {
        forall f | f in fields ensures Before(field.0, f.0) {
          if f != fields[0] { BeforeIsTransitive(field.0, fields[0].0, f.0); }
        }
        PrependKeepsSorted(field, fields);
      }
    }
  }

  lemma {:induction false} SortSorts(fields: seq<Field>)
    requires HasDistinctKeys(fields)
    ensures IsSorted(Sort(fields))
    decreases |fields|
  {
    if fields != [] {
      SortSorts(fields[1..]);
      forall f | f in Sort(fields[1..]) ensures f.0 != fields[0].0 {
        assert f in multiset(Sort(fields[1..])) && f in fields[1..];
      }
      InsertKeepsSorted(fields[0], Sort(fields[1..]));
    }
  }

  /** Sorted members are determined by which they are. */
  lemma {:induction false} SortedIsUnique(a: seq<Field>, b: seq<Field>)
    requires IsSorted(a) && IsSorted(b) && multiset(a) == multiset(b)
    ensures a == b
    decreases |a|
  {
    if a == [] {
      assert |b| == |multiset(b)|;
    } else {
      assert a[0] in multiset(b) && |multiset(a)| == |a| && |multiset(b)| == |b|;
      assert b[0] in multiset(a);
      if a[0] != b[0] {
        var i :| 0 <= i < |b| && b[i] == a[0];
        var j :| 0 <= j < |a| && a[j] == b[0];
        BeforeIsTotal(a[0].0, b[0].0);
      }
      assert a == [a[0]] + a[1..] && b == [b[0]] + b[1..];
      assert multiset(a[1..]) == multiset(a) - multiset{a[0]};
      assert multiset(b[1..]) == multiset(b) - multiset{b[0]};
      SortedIsUnique(a[1..], b[1..]);
    }
  }

  lemma {:induction false} DistinctCountsOnce(fields: seq<Field>, f: Field)
    requires HasDistinctKeys(fields)
    ensures multiset(fields)[f] == if f in fields then 1 else 0
    decreases |fields|
  {
    if fields != [] {
      DistinctCountsOnce(fields[1..], f);
      assert fields == [fields[0]] + fields[1..];
      if f == fields[0] {
        assert f !in fields[1..];
      }
    }
  }

  lemma SameMembersSameSort(a: seq<Field>, b: seq<Field>)
    requires HasDistinctKeys(a) && HasDistinctKeys(b) && forall f :: f in a <==> f in b
    ensures Sort(a) == Sort(b)
  {
    forall f ensures multiset(a)[f] == multiset(b)[f] {
      DistinctCountsOnce(a, f);
      DistinctCountsOnce(b, f);
    }
    assert multiset(a) == multiset(b);
    SortSorts(a);
    SortSorts(b);
    SortedIsUnique(Sort(a), Sort(b));
  }

  lemma SameSortSameSize(a: seq<Field>, b: seq<Field>)
    requires Sort(a) == Sort(b)
    ensures |a| == |b|
  {
    assert |a| == |multiset(a)| && |b| == |multiset(b)| && multiset(a) == multiset(b);
  }

  lemma SameSortSameMember(a: seq<Field>, b: seq<Field>, f: Field)
    requires Sort(a) == Sort(b) && f in a
    ensures f in b
  {
    assert f in multiset(a) && multiset(a) == multiset(b);
  }

  // ------------------------------------------------------------------ main results

  lemma {:induction false} StableFieldsAt(fields: seq<Field>, i: nat)
    requires i < |fields|
    ensures StableFields(fields)[i] == (fields[i].0, Stable(fields[i].1))
    decreases |fields|
  {
    if i > 0 {
      StableFieldsAt(fields[1..], i - 1);
    }
  }

  lemma StableFieldsAreDistinct(fields: seq<Field>)
    requires HasDistinctKeys(fields)
    ensures HasDistinctKeys(StableFields(fields))
  {
    forall i | 0 <= i < |fields| ensures StableFields(fields)[i].0 == fields[i].0 {
      StableFieldsAt(fields, i);
    }
  }

  /** Two objects have the same canonical members exactly when each key leads to values
      with the same canonical form. */
  lemma {:induction false} SameMembersIff(f: seq<Field>, g: seq<Field>)
    requires HasDistinctKeys(f) && HasDistinctKeys(g)
    ensures Sort(StableFields(f)) == Sort(StableFields(g))
       <==> |f| == |g| && forall i :: 0 <= i < |f| ==> HasMatch(f[i], g)
  {
    if Sort(StableFields(f)) == Sort(StableFields(g)) {
      SortedAlikeMatch(f, g);
    }
    if |f| == |g| && forall i :: 0 <= i < |f| ==> HasMatch(f[i], g) {
      MatchedSortAlike(f, g);
    }
  }

  lemma {:induction false} SortedAlikeMatch(f: seq<Field>, g: seq<Field>)
    requires Sort(StableFields(f)) == Sort(StableFields(g))
    ensures |f| == |g| && forall i :: 0 <= i < |f| ==> HasMatch(f[i], g)
  {
    SameSortSameSize(StableFields(f), StableFields(g));
    forall i | 0 <= i < |f| ensures HasMatch(f[i], g) {
      assert StableFields(f)[i] in StableFields(f);
      SameSortSameMember(StableFields(f), StableFields(g), StableFields(f)[i]);
      MemberHasMatch(f, g, i);
    }
  }

  lemma {:induction false} MatchedSortAlike(f: seq<Field>, g: seq<Field>)
    requires HasDistinctKeys(f) && HasDistinctKeys(g)
    requires |f| == |g| && forall i :: 0 <= i < |f| ==> HasMatch(f[i], g)
    ensures Sort(StableFields(f)) == Sort(StableFields(g))
  {
    StableFieldsAreDistinct(f);
    StableFieldsAreDistinct(g);
    forall i | 0 <= i < |f| ensures StableFields(f)[i] in StableFields(g) {
      MatchIsMember(f, g, i);
    }
    SubsetOfSameSize(StableFields(f), StableFields(g));
    SameMembersSameSort(StableFields(f), StableFields(g));
  }

  ghost predicate HasMatch(field: Field, g: seq<Field>) {
    exists j :: 0 <= j < |g| && g[j].0 == field.0 && Stable(g[j].1) == Stable(field.1)
  }

  lemma MemberHasMatch(f: seq<Field>, g: seq<Field>, i: nat)
    requires i < |f| && StableFields(f)[i] in StableFields(g)
    ensures HasMatch(f[i], g)
  {
    StableFieldsAt(f, i);
    var j :| 0 <= j < |g| && StableFields(g)[j] == StableFields(f)[i];
    StableFieldsAt(g, j);
  }

  lemma MatchIsMember(f: seq<Field>, g: seq<Field>, i: nat)
    requires i < |f| && HasMatch(f[i], g)
    ensures StableFields(f)[i] in StableFields(g)
  {
    var j :| 0 <= j < |g| && g[j].0 == f[i].0 && Stable(g[j].1) == Stable(f[i].1);
    StableFieldsAt(f, i);
    StableFieldsAt(g, j);
  }

  /** Distinct members, as many of them, all among the others: the same members. */
  lemma SubsetOfSameSize(a: seq<Field>, b: seq<Field>)
    requires HasDistinctKeys(a) && HasDistinctKeys(b) && |a| == |b| && forall i :: 0 <= i < |a| ==> a[i] in b
    ensures forall f :: f in a <==> f in b
  {
    forall f ensures multiset(a)[f] <= multiset(b)[f] {
      DistinctCountsOnce(a, f);
      DistinctCountsOnce(b, f);
    }
    assert multiset(b) == multiset(a) + (multiset(b) - multiset(a));
    assert |multiset(b) - multiset(a)| == 0;
    assert multiset(a) == multiset(b);
    forall f ensures f in a <==> f in b {
      assert f in a <==> f in multiset(a);
      assert f in b <==> f in multiset(b);
    }
  }

  /** The canonical form identifies a document up to key order, and nothing more: with an
      injective printer and hash, two bundles hash alike exactly when their documents
      differ in key order only. */
  lemma {:induction false} CanonicalIff(a: Json, b: Json)
    requires IsDocument(a) && IsDocument(b)
    ensures Stable(a) == Stable(b) <==> Same(a, b)
    decreases a
  {
    match (a, b)
    case (Arr(s), Arr(t)) =>
      forall i | 0 <= i < |s| && i < |t| ensures Stable(s[i]) == Stable(t[i]) <==> Same(s[i], t[i]) {
        CanonicalIff(s[i], t[i]);
      }
      if Same(a, b) { assert StableItems(s) == StableItems(t); }
      if Stable(a) == Stable(b) {
        forall i | 0 <= i < |s| ensures Same(s[i], t[i]) { assert StableItems(s)[i] == StableItems(t)[i]; }
      }
    case (Obj(f), Obj(g)) => CanonicalObjectIff(f, g);
    case _ =>
  }

  lemma CanonicalObjectIff(f: seq<Field>, g: seq<Field>)
    requires IsDocument(Obj(f)) && IsDocument(Obj(g))
    ensures Stable(Obj(f)) == Stable(Obj(g)) <==> Same(Obj(f), Obj(g))
    decreases f
  {
    forall i | 0 <= i < |f| ensures HasMatch(f[i], g) <==> HasSame(f[i], g) {
      CanonicalMemberIff(f[i], g);
    }
    SameMembersIff(f, g);
  }

  lemma CanonicalMemberIff(field: Field, g: seq<Field>)
    requires IsDocument(field.1) && forall j :: 0 <= j < |g| ==> IsDocument(g[j].1)
    ensures HasMatch(field, g) <==> HasSame(field, g)
    decreases field
  {
    forall j | 0 <= j < |g| ensures Stable(g[j].1) == Stable(field.1) <==> Same(field.1, g[j].1) {
      CanonicalIff(field.1, g[j].1);
    }
  }

  lemma SortedIsDistinct(fields: seq<Field>)
    requires IsSorted(fields)
    ensures HasDistinctKeys(fields)
  {
    forall i, j | 0 <= i < j < |fields| ensures fields[i].0 != fields[j].0 {
      BeforeIsTotal(fields[i].0, fields[j].0);
    }
  }

  /** A member of the sorted list is one of the originals, its value made stable. */
  lemma SortedMember(f: seq<Field>, m: Field) returns (i: nat)
    requires m in Sort(StableFields(f))
    ensures i < |f| && m == (f[i].0, Stable(f[i].1))
  {
    assert m in multiset(StableFields(f));
    i :| 0 <= i < |f| && StableFields(f)[i] == m;
    StableFieldsAt(f, i);
  }

  /** The canonical form of a document is that document, up to key order. */
  lemma {:induction false} StableIsSame(a: Json)
    requires IsDocument(a)
    ensures IsDocument(Stable(a)) && Same(Stable(a), a)
    decreases a, 1
  {
    match a
    case Arr(items) =>
      forall i | 0 <= i < |items| ensures IsDocument(Stable(items[i])) && Same(Stable(items[i]), items[i]) {
        StableIsSame(items[i]);
      }
    case Obj(f) => StableObjectIsSame(f);
    case _ =>
  }

  lemma StableMemberIsSame(f: seq<Field>, m: Field)
    requires IsDocument(Obj(f)) && m in Sort(StableFields(f))
    ensures IsDocument(m.1) && HasSame(m, f)
    decreases Obj(f), 0, 0
  {
    var i := SortedMember(f, m);
    var field := f[i];
    assert field.1 < field;
    StableIsSame(field.1);
  }

  lemma StableObjectIsSame(f: seq<Field>)
    requires IsDocument(Obj(f))
    ensures IsDocument(Stable(Obj(f))) && Same(Stable(Obj(f)), Obj(f))
    decreases Obj(f), 0, 1
  {
    var sorted := Sort(StableFields(f));
    StableFieldsAreDistinct(f);
    SortSorts(StableFields(f));
    SortedIsDistinct(sorted);
    forall i | 0 <= i < |sorted| ensures IsDocument(sorted[i].1) && HasSame(sorted[i], f) {
      StableMemberIsSame(f, sorted[i]);
    }
    assert |sorted| == |multiset(sorted)| && |f| == |multiset(StableFields(f))|;
  }

  lemma StableIsIdempotent(a: Json)
    requires IsDocument(a)
    ensures Stable(Stable(a)) == Stable(a)
  {
    StableIsSame(a);
    CanonicalIff(Stable(a), a);
  }

  // ------------------------------------------------------------ the order of members

  const DIGITS := "0123456789"

  /** A number as JavaScript prints it. */
  function Decimal(n: nat): string {
    if n < 10 then [DIGITS[n]] else Decimal(n / 10) + [DIGITS[n % 10]]
  }

  ghost predicate IsArrayIndex(key: string) {
    exists n: nat :: n < 0xFFFF_FFFF && Decimal(n) == key
  }

  /** The strings agree up to a place where a ends, or has the smaller character. */
  ghost predicate ComesBefore(a: string, b: string) {
    exists k :: 0 <= k <= |a| && k < |b| && a[..k] == b[..k] && (k == |a| || a[k] < b[k])
  }

  /** Array indices first and by their value, then the other keys by their characters. */
  ghost predicate AreInOrder(a: string, b: string) {
    && (IsArrayIndex(b) ==> IsArrayIndex(a))
    && (forall m: nat, n: nat :: n < 0xFFFF_FFFF && Decimal(m) == a && Decimal(n) == b ==> m < n)
    && (!IsArrayIndex(a) ==> ComesBefore(a, b))
  }

  ghost predicate IsInOrder(j: Json)
    decreases j
  {
    match j
    case Arr(items) => forall i :: 0 <= i < |items| ==> IsInOrder(items[i])
    case Obj(fields) =>
      && (forall i, j :: 0 <= i < j < |fields| ==> AreInOrder(fields[i].0, fields[j].0))
      && forall i :: 0 <= i < |fields| ==>
           var field := fields[i];
           assert field.1 < field;
           IsInOrder(field.1)
    case _ => true
  }

  function Ten(n: nat): nat {
    if n == 0 then 1 else 10 * Ten(n - 1)
  }

  function Digit(c: char): nat
    requires '0' <= c <= '9'
  {
    c as int - '0' as int
  }

  function Number(s: string): nat
    requires AllDigits(s)
  {
    if s == "" then 0 else 10 * Number(s[..|s| - 1]) + Digit(s[|s| - 1])
  }

  predicate IsNumeral(s: string) {
    s != "" && AllDigits(s) && (|s| > 1 ==> s[0] != '0')
  }

  lemma DigitsAscend(d: nat)
    requires d < 10
    ensures '0' <= DIGITS[d] <= '9' && Digit(DIGITS[d]) == d
  {}

  lemma {:induction false} DecimalIsNumeral(n: nat)
    ensures IsNumeral(Decimal(n)) && Number(Decimal(n)) == n && (n > 0 ==> Decimal(n)[0] != '0')
    decreases n
  {
    DigitsAscend(n % 10);
    if n >= 10 {
      DecimalIsNumeral(n / 10);
      assert Decimal(n)[..|Decimal(n)| - 1] == Decimal(n / 10);
    }
  }

  lemma {:induction false} NumberIsBounded(s: string)
    requires AllDigits(s)
    ensures Number(s) < Ten(|s|)
    ensures s != "" && s[0] != '0' ==> Ten(|s| - 1) <= Number(s)
    decreases |s|
  {
    if s != "" {
      NumberIsBounded(s[..|s| - 1]);
      if |s| > 1 { assert s[..|s| - 1][0] == s[0]; }
    }
  }

  lemma {:induction false} TenGrows(m: nat, n: nat)
    requires m <= n
    ensures Ten(m) <= Ten(n)
    decreases n
  {
    if m < n { TenGrows(m, n - 1); }
  }

  lemma {:induction false} LessByLast(a: string, b: string)
    requires |a| == |b| && a != ""
    ensures var n := |a| - 1; Less(a, b) <==> Less(a[..n], b[..n]) || (a[..n] == b[..n] && a[n] < b[n])
    decreases |a|
  {
    var n := |a| - 1;
    if n > 0 {
      LessByLast(a[1..], b[1..]);
      assert a[1..][..n - 1] == a[..n][1..] && b[1..][..n - 1] == b[..n][1..];
      assert a[..n] == [a[0]] + a[..n][1..] && b[..n] == [b[0]] + b[..n][1..];
    } else {
      assert !Less(a[..0], b[..0]) && !Less(a[1..], b[1..]);
    }
  }

  lemma LastDigitDecides(m: nat, n: nat, c: nat, d: nat)
    requires c < 10 && d < 10
    ensures 10 * m + c < 10 * n + d <==> m < n || (m == n && c < d)
    ensures 10 * m + c == 10 * n + d <==> m == n && c == d
  {}

  lemma {:induction false} LessByNumber(a: string, b: string)
    requires |a| == |b| && AllDigits(a) && AllDigits(b)
    ensures Less(a, b) <==> Number(a) < Number(b)
    ensures a == b <==> Number(a) == Number(b)
    decreases |a|
  {
    if a != "" {
      var n := |a| - 1;
      LessByLast(a, b);
      LessByNumber(a[..n], b[..n]);
      assert a == a[..n] + [a[n]] && b == b[..n] + [b[n]];
      LastDigitDecides(Number(a[..n]), Number(b[..n]), Digit(a[n]), Digit(b[n]));
    }
  }

  /** Shorter numerals are smaller, equally long ones by their characters. */
  lemma NumeralsCompare(a: string, b: string)
    requires IsNumeral(a) && IsNumeral(b)
    ensures Number(a) < Number(b) <==> |a| < |b| || (|a| == |b| && Less(a, b))
  {
    NumberIsBounded(a);
    NumberIsBounded(b);
    if |a| == |b| {
      LessByNumber(a, b);
    } else if |a| < |b| {
      TenGrows(|a|, |b| - 1);
    } else {
      TenGrows(|b|, |a| - 1);
    }
  }

  lemma NumeralIsDecimal(s: string)
    requires IsNumeral(s)
    ensures Decimal(Number(s)) == s
  {
    var t := Decimal(Number(s));
    DecimalIsNumeral(Number(s));
    NumeralsCompare(s, t);
    NumeralsCompare(t, s);
    if |s| == |t| { LessByNumber(s, t); }
  }

  const LIMIT := "4294967295"

  lemma LimitIsNumeral()
    ensures IsNumeral(LIMIT) && Number(LIMIT) == 0xFFFF_FFFF
  {
    assert LIMIT[..9] == "429496729" && LIMIT[..9][..8] == "42949672" && LIMIT[..9][..8][..7] == "4294967";
    assert Number("4294967") == 4294967 by {
      assert "4294967"[..6] == "429496" && "429496"[..5] == "42949" && "42949"[..4] == "4294" && "4294"[..3] == "429";
      assert "429"[..2] == "42" && "42"[..1] == "4" && "4"[..0] == "";
      assert Number("42") == 42;
      assert Number("4294") == 4294;
    }
    assert Number("42949672") == 42949672;
  }

  lemma IndexIff(key: string)
    ensures IsIndex(key) <==> IsArrayIndex(key)
  {
    LimitIsNumeral();
    if IsNumeral(key) {
      NumeralsCompare(key, LIMIT);
      NumeralIsDecimal(key);
    }
    if n: nat :| n < 0xFFFF_FFFF && Decimal(n) == key {
      DecimalIsNumeral(n);
    }
  }

  lemma {:induction false} LessIff(a: string, b: string)
    ensures Less(a, b) <==> ComesBefore(a, b)
    decreases |a|
  {
    if a != "" && b != "" && a[0] == b[0] {
      LessIff(a[1..], b[1..]);
      if k :| 0 <= k <= |a[1..]| && k < |b[1..]| && a[1..][..k] == b[1..][..k] && (k == |a[1..]| || a[1..][k] < b[1..][k]) {
        assert a[..k + 1] == [a[0]] + a[1..][..k] && b[..k + 1] == [b[0]] + b[1..][..k];
      }
      if k :| 0 <= k <= |a| && k < |b| && a[..k] == b[..k] && (k == |a| || a[k] < b[k]) {
        assert a[1..][..k - 1] == a[..k][1..] && b[1..][..k - 1] == b[..k][1..];
      }
    } else if a == "" && b != "" {
      assert a[..0] == b[..0];
    } else if Less(a, b) {
      assert a[..0] == b[..0];
    }
  }

  lemma BeforeIsInOrder(a: string, b: string)
    requires Before(a, b)
    ensures AreInOrder(a, b)
  {
    IndexIff(a);
    IndexIff(b);
    LessIff(a, b);
    forall m: nat, n: nat | n < 0xFFFF_FFFF && Decimal(m) == a && Decimal(n) == b ensures m < n {
      DecimalIsNumeral(m);
      DecimalIsNumeral(n);
      NumeralsCompare(a, b);
    }
  }

  /** The canonical form lists the members of its objects in one order at every depth. */
  lemma {:induction false} StableIsInOrder(a: Json)
    requires IsDocument(a)
    ensures IsInOrder(Stable(a))
    decreases a, 1
  {
    match a
    case Arr(items) =>
      forall i | 0 <= i < |items| ensures IsInOrder(Stable(items[i])) {
        StableIsInOrder(items[i]);
      }
    case Obj(f) =>
      var sorted := Sort(StableFields(f));
      StableFieldsAreDistinct(f);
      SortSorts(StableFields(f));
      forall i, j | 0 <= i < j < |sorted| ensures AreInOrder(sorted[i].0, sorted[j].0) {
        BeforeIsInOrder(sorted[i].0, sorted[j].0);
      }
      forall i | 0 <= i < |sorted| ensures IsInOrder(sorted[i].1) {
        StableMemberIsInOrder(f, sorted[i]);
      }
    case _ =>
  }

  lemma StableMemberIsInOrder(f: seq<Field>, m: Field)
    requires IsDocument(Obj(f)) && m in Sort(StableFields(f))
    ensures IsInOrder(m.1)
    decreases Obj(f), 0
  {
    var i := SortedMember(f, m);
    var field := f[i];
    assert field.1 < field;
    StableIsInOrder(field.1);
  }
}
