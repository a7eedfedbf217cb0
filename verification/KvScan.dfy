/** Key order and the paged scan of a transaction's consistent view. */
module KvScan {
  import opened BigEndian

  type Key = seq<Byte>

  // ---------- Key order ----------

  /** Binary order: the first difference decides, and a key comes before its extensions. */
  predicate Less(a: Key, b: Key) {
    b != [] && (a == [] || a[0] < b[0] || (a[0] == b[0] && Less(a[1..], b[1..])))
  }

  lemma {:induction false} LessIsTotal(a: Key, b: Key)
    ensures !Less(a, a) && (Less(a, b) || Less(b, a) || a == b) && !(Less(a, b) && Less(b, a))
  {
    if a != [] {
      LessIsTotal(a[1..], if b == [] then [] else b[1..]);
      if b != [] && a[0] == b[0] && a[1..] == b[1..] {
        assert a == [a[0]] + a[1..] && b == [b[0]] + b[1..];
      }
    }
  }

  lemma {:induction false} LessIsTransitive(a: Key, b: Key, c: Key)
    requires Less(a, b) && Less(b, c)
    ensures Less(a, c)
  {
    if a != [] && a[0] == b[0] == c[0] {
      LessIsTransitive(a[1..], b[1..], c[1..]);
    }
  }

  lemma {:induction false} LessAtDifference(a: Key, b: Key, n: nat)
    requires n <= |a| && n <= |b| && a[..n] == b[..n]
    ensures Less(a, b) <==> Less(a[n..], b[n..])
  {
    if n > 0 {
      assert a[0] == a[..n][0] == b[..n][0] == b[0];
      assert a[1..][..n - 1] == a[..n][1..] == b[..n][1..] == b[1..][..n - 1];
      LessAtDifference(a[1..], b[1..], n - 1);
      assert a[1..][n - 1..] == a[n..] && b[1..][n - 1..] == b[n..];
    }
  }

  /** The keys agree up to i, where the first has the smaller byte or has ended. */
  predicate SmallerAt(a: Key, b: Key, i: nat) {
    i <= |a| && i < |b| && a[..i] == b[..i] && (i == |a| || a[i] < b[i])
  }

  /** A key is before another exactly when it is a proper prefix of it or has the smaller byte at their first difference. */
  lemma {:induction false} LessIff(a: Key, b: Key)
    ensures Less(a, b) <==> exists i: nat :: SmallerAt(a, b, i)
  {
    forall i: nat | SmallerAt(a, b, i) ensures Less(a, b) {
      LessAtDifference(a, b, i);
    }
    if Less(a, b) {
      var i := FirstDifference(a, b);
    }
  }

  lemma {:induction false} FirstDifference(a: Key, b: Key) returns (i: nat)
    requires Less(a, b)
    ensures SmallerAt(a, b, i)
  {
    if a != [] && a[0] == b[0] {
      i := FirstDifference(a[1..], b[1..]);
      assert a[..i + 1] == [a[0]] + a[1..][..i] && b[..i + 1] == [b[0]] + b[1..][..i];
      i := i + 1;
    } else {
      i := 0;
    }
  }

  /** The comparison is negative, zero or positive as the keys are before, equal or after. */
  method CompareKeys(left: Key, right: Key) returns (order: int)
    ensures order < 0 <==> Less(left, right)
    ensures order == 0 <==> left == right
    ensures order > 0 <==> Less(right, left)
  {
    var sharedLength := if |left| < |right| then |left| else |right|;
    for index := 0 to sharedLength
      invariant left[..index] == right[..index]
    {
      if left[index] != right[index] {
        LessAtDifference(left, right, index);
        LessAtDifference(right, left, index);
        var l: int, r: int := left[index], right[index];
        return l - r;
      }
    }
    LessAtDifference(left, right, sharedLength);
    LessAtDifference(right, left, sharedLength);
    if |left| == |right| {
      assert left == left[..sharedLength] && right == right[..sharedLength];
    }
    return |left| - |right|;
  }

  // ---------- Ranges ----------

  datatype Entry = Entry(key: Key, value: seq<Byte>)

  datatype Bound = Unbounded | At(key: Key)

  datatype Options = Options(start: Bound, end: Bound, reverse: bool, startExclusive: bool)

  /** Before in the direction of the scan. */
  predicate Before(a: Key, b: Key, reverse: bool) {
    if reverse then Less(b, a) else Less(a, b)
  }

  /** From the start, which is included unless excluded, up to but not including the end. */
  predicate InRange(key: Key, o: Options) {
    && (o.start.At? ==> Before(o.start.key, key, o.reverse) || (!o.startExclusive && key == o.start.key))
    && (o.end.At? ==> Before(key, o.end.key, o.reverse))
  }

  /** At or after the start, not at it if that is excluded, and strictly before the end, in the direction of the scan. */
  lemma InRangeIff(key: Key, o: Options)
    ensures InRange(key, o) <==>
            && (o.start.At? ==> !(if o.reverse then Less(o.start.key, key) else Less(key, o.start.key)))
            && (o.start.At? && o.startExclusive ==> key != o.start.key)
            && (o.end.At? ==> key != o.end.key && !(if o.reverse then Less(key, o.end.key) else Less(o.end.key, key)))
  {
    if o.start.At? {
      LessIsTotal(key, o.start.key);
    }
    if o.end.At? {
      LessIsTotal(key, o.end.key);
    }
  }

  ghost predicate Sorted(entries: seq<Entry>, reverse: bool) {
    forall i, j :: 0 <= i < j < |entries| ==> Before(entries[i].key, entries[j].key, reverse)
  }

  function Filter(entries: seq<Entry>, o: Options): seq<Entry> {
    if entries == [] then []
    else if InRange(entries[0].key, o) then [entries[0]] + Filter(entries[1..], o)
    else Filter(entries[1..], o)
  }

  /** The view in the direction of the scan. */
  function Directed(store: seq<Entry>, reverse: bool): (d: seq<Entry>)
    ensures |d| == |store|
    ensures forall i :: 0 <= i < |d| ==> d[i] == store[if reverse then |store| - 1 - i else i]
  {
    if reverse then seq(|store|, i requires 0 <= i < |store| => store[|store| - 1 - i]) else store
  }

  /** The entries a scan with these options is to yield. */
  function InOrder(store: seq<Entry>, o: Options): seq<Entry> {
    Filter(Directed(store, o.reverse), o)
  }

  lemma {:induction false} FilterSorted(entries: seq<Entry>, o: Options)
    requires Sorted(entries, o.reverse)
    ensures Sorted(Filter(entries, o), o.reverse)
    ensures forall e :: e in Filter(entries, o) <==> e in entries && InRange(e.key, o)
  {
    if entries != [] {
      assert Sorted(entries[1..], o.reverse);
      FilterSorted(entries[1..], o);
      var rest, f := Filter(entries[1..], o), Filter(entries, o);
      forall i, j | 0 <= i < j < |f| ensures Before(f[i].key, f[j].key, o.reverse) {
        if InRange(entries[0].key, o) {
          assert f[j] == rest[j - 1] && f[j] in entries[1..];
          assert i > 0 ==> f[i] == rest[i - 1];
        }
      }
    }
  }

  /** The options of the next page: strictly after the last key, the rest as the caller gave them. */
  function Resume(o: Options, last: Key): Options {
    o.(start := At(last), startExclusive := true)
  }

  lemma ResumedRange(o: Options, last: Key, key: Key)
    requires InRange(last, o)
    ensures InRange(key, Resume(o, last)) <==> InRange(key, o) && Before(last, key, o.reverse)
  {
    if o.start.At? && Before(last, key, o.reverse) && o.start.key != last {
      if o.reverse {
        LessIsTransitive(key, last, o.start.key);
      } else {
        LessIsTransitive(o.start.key, last, key);
      }
    }
  }

  /** Of a sorted stretch, what comes after its n-th entry is what follows it. */
  lemma {:induction false} FilterResumed(entries: seq<Entry>, o: Options, n: nat)
    requires Sorted(entries, o.reverse) && 0 < n <= |Filter(entries, o)|
    ensures Filter(entries, Resume(o, Filter(entries, o)[n - 1].key)) == Filter(entries, o)[n..]
    decreases |entries|
  {
    var all := Filter(entries, o);
    var last := all[n - 1].key;
    FilterSorted(entries, o);
    assert all[n - 1] in all;
    ResumedRange(o, last, entries[0].key);
    assert Sorted(entries[1..], o.reverse);
    FilterSorted(entries[1..], o);
    if !InRange(entries[0].key, o) {
      FilterResumed(entries[1..], o, n);
    } else if n > 1 {
      FilterResumed(entries[1..], o, n - 1);
      assert all[1..][n - 2] == all[n - 1];
      LessIsTotal(entries[0].key, last);
      assert Before(all[0].key, all[n - 1].key, o.reverse);
    } else {
      LessIsTotal(last, last);
      AllAfter(entries[1..], o, last);
    }
  }

  lemma {:induction false} AllAfter(entries: seq<Entry>, o: Options, last: Key)
    requires InRange(last, o) && forall e :: e in entries ==> Before(last, e.key, o.reverse)
    ensures Filter(entries, Resume(o, last)) == Filter(entries, o)
  {
    if entries != [] {
      ResumedRange(o, last, entries[0].key);
      AllAfter(entries[1..], o, last);
    }
  }

  // ---------- Pages ----------

  datatype Page = Page(entries: seq<Entry>, hasMore: bool)

  /** The broker's page: as many entries of what remains as it likes, and whether there are more. */
  function Scan(store: seq<Entry>, o: Options, limit: nat): Page {
    var rest := InOrder(store, o);
    if limit >= |rest| then Page(rest, false) else Page(rest[..limit], true)
  }

  lemma DirectedSorted(store: seq<Entry>, reverse: bool)
    requires Sorted(store, false)
    ensures Sorted(Directed(store, reverse), reverse)
  {
  }

  /** Resuming after a page leaves exactly what the page did not have. */
  lemma ResumeAfterPage(store: seq<Entry>, o: Options, n: nat)
    requires Sorted(store, false) && 0 < n <= |InOrder(store, o)|
    ensures InOrder(store, Resume(o, InOrder(store, o)[n - 1].key)) == InOrder(store, o)[n..]
  {
    DirectedSorted(store, o.reverse);
    FilterResumed(Directed(store, o.reverse), o, n);
  }

  lemma PageThenRest(store: seq<Entry>, o: Options, limit: nat)
    requires Sorted(store, false) && Scan(store, o, limit).hasMore && Scan(store, o, limit).entries != []
    ensures var entries := Scan(store, o, limit).entries;
            var rest := InOrder(store, Resume(o, entries[|entries| - 1].key));
            InOrder(store, o) == entries + rest && |rest| < |InOrder(store, o)|
  {
    ResumeAfterPage(store, o, limit);
  }

  /**
   The paged scan: whatever page sizes the broker picks, the scan ends; if no page is empty while there is
   more it yields exactly the entries of the range, once each and in order, and otherwise it fails after a
   prefix of them.
   */
  method ScanAll(store: seq<Entry>, options: Options, limits: nat -> nat) returns (yielded: seq<Entry>, complete: bool)
    requires Sorted(store, false)
    ensures complete ==> yielded == InOrder(store, options)
    ensures !complete ==> yielded < InOrder(store, options) && exists i :: limits(i) == 0
  {
    var nextOptions, pages := options, 0;
    yielded := [];
    ghost var all := InOrder(store, options);
    ghost var rest := all;
    while true
      invariant rest == InOrder(store, nextOptions) && all == yielded + rest
      invariant nextOptions.end == options.end && nextOptions.reverse == options.reverse
      decreases |rest|
    {
      var page := Scan(store, nextOptions, limits(pages));
      if page.hasMore && page.entries == [] {
        assert limits(pages) == 0 && rest != [];
        return yielded, false;
      }
      ghost var before := yielded;
      yielded := yielded + page.entries;
      if !page.hasMore {
        assert page.entries == rest;
        return yielded, true;
      }
      var lastKey := page.entries[|page.entries| - 1].key;
      PageThenRest(store, nextOptions, limits(pages));
      nextOptions := Resume(options, lastKey);
      rest := InOrder(store, nextOptions);
      Regroup(before, page.entries, rest);
      pages := pages + 1;
    }
  }

  /** Every entry of the range is yielded, and yielded once; no other is. */
  lemma RangeExactly(store: seq<Entry>, o: Options)
    requires Sorted(store, false)
    ensures forall e :: e in InOrder(store, o) <==> e in store && InRange(e.key, o)
    ensures forall i, j :: 0 <= i < j < |InOrder(store, o)| ==> InOrder(store, o)[i] != InOrder(store, o)[j]
    ensures Sorted(InOrder(store, o), o.reverse)
  {
    var d := Directed(store, o.reverse);
    DirectedSorted(store, o.reverse);
    FilterSorted(d, o);
    forall e | e in store ensures e in d {
      var i :| 0 <= i < |store| && store[i] == e;
      assert d[if o.reverse then |store| - 1 - i else i] == e;
    }
    forall i, j | 0 <= i < j < |InOrder(store, o)| ensures InOrder(store, o)[i] != InOrder(store, o)[j] {
      LessIsTotal(InOrder(store, o)[i].key, InOrder(store, o)[j].key);
    }
  }
}
