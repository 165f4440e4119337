/** The names of an upload's segments, and the order in which a listing sorted by name returns them
    (swift_large_object.go, putPart; the manifest header of Close makes the store concatenate the
    segments in that order). */
module SegmentNames {
  import opened Decimal
  import opened Text

  function Name(objectName: string, timestamp: string, k: nat): string {
    objectName + "/" + timestamp + "/" + Print(k)
  }

  lemma NameInjective(objectName: string, timestamp: string, j: nat, k: nat)
    requires Name(objectName, timestamp, j) == Name(objectName, timestamp, k)
    ensures j == k
  {
    var p := objectName + "/" + timestamp + "/";
    assert Name(objectName, timestamp, j)[|p|..] == Print(j);
    assert Name(objectName, timestamp, k)[|p|..] == Print(k);
    PrintInjective(j, k);
  }

  /** Part numbers with equally many digits are listed in part order. */
  lemma NameOrder(objectName: string, timestamp: string, j: nat, k: nat)
    requires |Print(j)| == |Print(k)|
    ensures Before(Name(objectName, timestamp, j), Name(objectName, timestamp, k)) <==> j < k
  {
    BeforeAfterPrefix(objectName + "/" + timestamp + "/", Print(j), Print(k));
    PrintOrder(j, k);
  }

  function Range(n: nat): seq<nat> {
    seq(n, i => i + 1)
  }

  /** `listing` names the parts 1, ..., n, each once, sorted by name. */
  ghost predicate SortedListing(objectName: string, timestamp: string, n: nat, listing: seq<nat>) {
    && |listing| == n
    && (forall k :: k in listing <==> 1 <= k <= n)
    && SortedByName(objectName, timestamp, listing)
  }

  ghost predicate SortedByName(objectName: string, timestamp: string, listing: seq<nat>) {
    forall i, j :: 0 <= i < j < |listing| ==>
      Before(Name(objectName, timestamp, listing[i]), Name(objectName, timestamp, listing[j]))
  }

  lemma {:induction false} InsertByName(objectName: string, timestamp: string, listing: seq<nat>, k: nat)
    returns (r: seq<nat>)
    requires SortedByName(objectName, timestamp, listing) && k !in listing
    ensures SortedByName(objectName, timestamp, r) && |r| == |listing| + 1
    ensures forall j :: j in r <==> j in listing || j == k
    decreases |listing|
  {
    var m := |listing| - 1;
    if listing == [] {
      r := [k];
    } else if Before(Name(objectName, timestamp, listing[m]), Name(objectName, timestamp, k)) {
      r := listing + [k];
      forall i | 0 <= i < m ensures Before(Name(objectName, timestamp, listing[i]), Name(objectName, timestamp, k)) {
        BeforeTransitive(Name(objectName, timestamp, listing[i]), Name(objectName, timestamp, listing[m]),
                         Name(objectName, timestamp, k));
      }
    } else {
      BeforeIsTotal(Name(objectName, timestamp, listing[m]), Name(objectName, timestamp, k));
      if Name(objectName, timestamp, listing[m]) == Name(objectName, timestamp, k) {
        NameInjective(objectName, timestamp, listing[m], k);
      }
      var front := InsertByName(objectName, timestamp, listing[..m], k);
      r := front + [listing[m]];
      forall i | 0 <= i < |front|
        ensures Before(Name(objectName, timestamp, front[i]), Name(objectName, timestamp, listing[m]))
      {
        assert front[i] in front;
      }
    }
  }

  /** Every upload has a listing sorted by name. */
  lemma {:induction false} SortedListingExists(objectName: string, timestamp: string, n: nat)
    returns (listing: seq<nat>)
    ensures SortedListing(objectName, timestamp, n, listing)
  {
    if n == 0 {
      listing := [];
    } else {
      var before := SortedListingExists(objectName, timestamp, n - 1);
      listing := InsertByName(objectName, timestamp, before, n);
    }
  }

  lemma {:induction false} GrowsByIndex(listing: seq<nat>, i: nat, j: nat)
    requires forall i, j :: 0 <= i < j < |listing| ==> listing[i] < listing[j]
    requires i <= j < |listing|
    ensures listing[j] - listing[i] >= j - i
    decreases j - i
  {
    if i < j {
      GrowsByIndex(listing, i, j - 1);
    }
  }

  lemma IncreasingIsRange(listing: seq<nat>, n: nat)
    requires |listing| == n && forall i :: 0 <= i < n ==> 1 <= listing[i] <= n
    requires forall i, j :: 0 <= i < j < |listing| ==> listing[i] < listing[j]
    ensures listing == Range(n)
  {
    forall i | 0 <= i < n ensures listing[i] == i + 1 {
      GrowsByIndex(listing, 0, i);
      GrowsByIndex(listing, i, n - 1);
    }
  }

  /** A listing sorted by name is in part order exactly for uploads of at most nine parts. */
  lemma ListingIsPartOrder(objectName: string, timestamp: string, n: nat, listing: seq<nat>)
    requires SortedListing(objectName, timestamp, n, listing)
    ensures listing == Range(n) <==> n <= 9
  {
    if n <= 9 {
      assert forall i :: 0 <= i < n ==> listing[i] in listing;
      forall i, j | 0 <= i < j < |listing| ensures listing[i] < listing[j] {
        NameOrder(objectName, timestamp, listing[i], listing[j]);
      }
      IncreasingIsRange(listing, n);
    } else if listing == Range(n) {
      assert listing[1] == 2 && listing[9] == 10;
      TenBeforeTwo(objectName, timestamp);
      var two, ten := Name(objectName, timestamp, 2), Name(objectName, timestamp, 10);
      BeforeTransitive(two, ten, two);
      BeforeIsStrict(two);
    }
  }

  lemma TenBeforeTwo(objectName: string, timestamp: string)
    ensures Before(Name(objectName, timestamp, 10), Name(objectName, timestamp, 2))
  {
    assert Print(10) == Print(1) + [Digit(0)];
    assert Print(10)[0] == '1' && Print(2)[0] == '2';
    BeforeAfterPrefix(objectName + "/" + timestamp + "/", Print(10), Print(2));
  }

  /** From ten parts on a listing sorted by name begins with the first and the tenth. */
  lemma ListingStartsWithOneAndTen(objectName: string, timestamp: string, n: nat, listing: seq<nat>)
    requires SortedListing(objectName, timestamp, n, listing) && n >= 10
    ensures listing[0] == 1 && listing[1] == 10
  {
    assert 1 in listing && 10 in listing;
    var i :| 0 <= i < n && listing[i] == 1;
    if i > 0 {
      NotBefore(objectName, timestamp, n, listing, 0, i);
    }
    NotBefore(objectName, timestamp, n, listing, 0, 1);
    var j :| 0 <= j < n && listing[j] == 10;
    if j > 1 {
      NotBefore(objectName, timestamp, n, listing, 1, j);
    }
  }

  lemma NotBefore(objectName: string, timestamp: string, n: nat, listing: seq<nat>, i: nat, j: nat)
    requires SortedListing(objectName, timestamp, n, listing) && i < j < n
    ensures listing[j] != 1 && (listing[j] == 10 ==> listing[i] == 1)
  {
    var x, y := Name(objectName, timestamp, listing[i]), Name(objectName, timestamp, listing[j]);
    assert listing[i] in listing && listing[j] in listing;
    if Before(y, x) {
      BeforeTransitive(x, y, x);
      BeforeIsStrict(x);
    }
    BeforeIsStrict(x);
    BeforeAfterPrefix(objectName + "/" + timestamp + "/", Print(listing[j]), Print(listing[i]));
    OneAndTenComeFirst(listing[i]);
  }

  // ----- one upload's segments among the others

  function Prefix(objectName: string, timestamp: string): string {
    objectName + "/" + timestamp + "/"
  }

  /** Of the segments of one object, those of one upload are the ones under its timestamp. */
  lemma PrefixSeparatesUploads(objectName: string, t0: string, t1: string, k: nat)
    requires '/' !in t0 && '/' !in t1
    ensures HasPrefix(Name(objectName, t1, k), Prefix(objectName, t0)) <==> t0 == t1
  {
    var name, p := Name(objectName, t1, k), Prefix(objectName, t0);
    var n := |objectName| + 1;
    if HasPrefix(name, p) {
      var rest := name[|p|..];
      assert name == p + rest;
      assert t0 + ['/'] + rest == name[n..] == t1 + ['/'] + Print(k);
      CutUnique(t0, t1, '/', rest, Print(k));
    }
  }

  /** The manifest names its segments by a prefix that does not end in a slash. */
  function ManifestPrefix(objectName: string, timestamp: string): string {
    objectName + "/" + timestamp
  }

  /** So it covers the segments of every upload whose timestamp begins with the manifest's. */
  lemma ManifestPrefixMatches(objectName: string, t0: string, t1: string, k: nat)
    requires '/' !in t0 && '/' !in t1
    ensures HasPrefix(Name(objectName, t1, k), ManifestPrefix(objectName, t0)) <==> HasPrefix(t1, t0)
  {
    var name, p, n := Name(objectName, t1, k), ManifestPrefix(objectName, t0), |objectName| + 1;
    var tail := t1 + "/" + Print(k);
    assert name == objectName + "/" + tail && p == objectName + "/" + t0;
    if |p| <= |name| {
      assert name[..|p|] == objectName + "/" + tail[..|t0|];
      assert p[n..] == t0 && name[..|p|][n..] == tail[..|t0|];
      if |t0| <= |t1| {
        assert tail[..|t0|] == t1[..|t0|];
      } else {
        assert tail[..|t0|][|t1|] == '/';
      }
    }
  }

  lemma {:induction false} DigitsHaveNoSlash(n: nat)
    ensures '/' !in Print(n)
  {
    if n >= 10 {
      DigitsHaveNoSlash(n / 10);
    }
  }

  /** Timestamps are numbers. Those with equally many digits are kept apart. */
  lemma TimestampsApart(objectName: string, m: nat, n: nat, k: nat)
    requires |Print(m)| == |Print(n)|
    ensures HasPrefix(Name(objectName, Print(n), k), ManifestPrefix(objectName, Print(m))) <==> m == n
  {
    DigitsHaveNoSlash(m);
    DigitsHaveNoSlash(n);
    ManifestPrefixMatches(objectName, Print(m), Print(n), k);
    if HasPrefix(Print(n), Print(m)) {
      assert Print(n)[..|Print(m)|] == Print(n);
      PrintInjective(m, n);
    }
  }

  /** One with a digit more is not. */
  lemma LongerTimestampClashes(objectName: string, m: nat, n: nat, k: nat)
    requires n >= 10 && n / 10 == m
    ensures HasPrefix(Name(objectName, Print(n), k), ManifestPrefix(objectName, Print(m)))
  {
    DigitsHaveNoSlash(m);
    DigitsHaveNoSlash(n);
    ManifestPrefixMatches(objectName, Print(m), Print(n), k);
    assert Print(n)[..|Print(m)|] == Print(m);
  }

  /** The container holds this store's segments, and no other name the manifest covers. */
  ghost predicate Alone<T(!new)>(container: map<string, T>, objectName: string, timestamp: string, store: map<nat, T>) {
    && (forall k :: k in store ==>
          Name(objectName, timestamp, k) in container && container[Name(objectName, timestamp, k)] == store[k])
    && (forall x :: x in container && HasPrefix(x, ManifestPrefix(objectName, timestamp)) ==>
          exists k :: k in store && x == Name(objectName, timestamp, k))
  }

  /** Below the object's name the container holds the segments of these uploads, by timestamp. */
  ghost predicate Holds<T(!new)>(container: map<string, T>, objectName: string, uploads: map<string, map<nat, T>>) {
    && (forall t :: t in uploads ==> '/' !in t)
    && (forall t, k :: t in uploads && k in uploads[t] ==>
          Name(objectName, t, k) in container && container[Name(objectName, t, k)] == uploads[t][k])
    && (forall x :: x in container && HasPrefix(x, objectName + "/") ==>
          exists t, k :: t in uploads && k in uploads[t] && x == Name(objectName, t, k))
  }

  lemma NameDeterminesUpload(objectName: string, t0: string, t1: string, j: nat, k: nat)
    requires '/' !in t0 && '/' !in t1 && Name(objectName, t0, j) == Name(objectName, t1, k)
    ensures t0 == t1 && j == k
  {
    var n := |objectName| + 1;
    assert Name(objectName, t0, j)[n..] == t0 + ['/'] + Print(j);
    assert Name(objectName, t1, k)[n..] == t1 + ['/'] + Print(k);
    CutUnique(t0, t1, '/', Print(j), Print(k));
    PrintInjective(j, k);
  }

  /** A manifest covers its own segments alone if and only if no other upload of the object has a
      segment and a timestamp that begins with its own. */
  lemma AloneIffNoLongerTimestamp<T(!new)>(container: map<string, T>, objectName: string,
                                           uploads: map<string, map<nat, T>>, t0: string)
    requires Holds(container, objectName, uploads) && t0 in uploads
    ensures Alone(container, objectName, t0, uploads[t0])
       <==> forall t :: t in uploads && t != t0 && uploads[t] != map[] ==> !HasPrefix(t, t0)
  {
    if t :| t in uploads && t != t0 && uploads[t] != map[] && HasPrefix(t, t0) {
      var k :| k in uploads[t];
      ManifestPrefixMatches(objectName, t0, t, k);
      forall j | j in uploads[t0] ensures Name(objectName, t, k) != Name(objectName, t0, j) {
        if Name(objectName, t, k) == Name(objectName, t0, j) {
          NameDeterminesUpload(objectName, t, t0, k, j);
        }
      }
    } else {
      forall x | x in container && HasPrefix(x, ManifestPrefix(objectName, t0))
        ensures exists k :: k in uploads[t0] && x == Name(objectName, t0, k)
      {
        assert x[..|objectName| + 1] == objectName + "/";
        var t, k :| t in uploads && k in uploads[t] && x == Name(objectName, t, k);
        ManifestPrefixMatches(objectName, t0, t, k);
      }
    }
  }

  // ----- what a manifest serves

  /** The names the manifest covers, each once, in byte order. */
  ghost predicate Covers<T(!new)>(container: map<string, T>, objectName: string, timestamp: string, names: seq<string>)
  {
    && (forall x :: x in names <==> x in container && HasPrefix(x, ManifestPrefix(objectName, timestamp)))
    && (forall i, j :: 0 <= i < j < |names| ==> Before(names[i], names[j]))
  }

  lemma {:induction false} ListsAllOnce(listing: seq<nat>, n: nat)
    requires forall k :: k in listing <==> 1 <= k <= n
    requires forall i, j :: 0 <= i < j < |listing| ==> listing[i] != listing[j]
    ensures |listing| == n
  {
    assert listing != [] ==> listing[0] in listing;
    if n > 0 {
      assert n in listing;
      var i :| 0 <= i < |listing| && listing[i] == n;
      var rest := listing[..i] + listing[i + 1..];
      forall k ensures k in rest <==> 1 <= k <= n - 1 {
        assert listing == listing[..i] + [n] + listing[i + 1..];
        assert k != n ==> (k in rest <==> k in listing);
      }
      ListsAllOnce(rest, n - 1);
    }
  }

  /** The part numbers behind the names of an upload's n segments. */
  lemma NumbersOf(objectName: string, timestamp: string, n: nat, names: seq<string>) returns (listing: seq<nat>)
    requires forall x :: x in names <==> exists k :: 1 <= k <= n && x == Name(objectName, timestamp, k)
    requires forall i, j :: 0 <= i < j < |names| ==> Before(names[i], names[j])
    ensures SortedListing(objectName, timestamp, n, listing) && |names| == n
    ensures forall i :: 0 <= i < n ==> names[i] == Name(objectName, timestamp, listing[i])
  {
    listing := [];
    while |listing| < |names|
      invariant |listing| <= |names|
      invariant forall i :: 0 <= i < |listing| ==>
                  1 <= listing[i] <= n && names[i] == Name(objectName, timestamp, listing[i])
    {
      assert names[|listing|] in names;
      var k :| 1 <= k <= n && names[|listing|] == Name(objectName, timestamp, k);
      listing := listing + [k];
    }
    forall i, j | 0 <= i < j < |listing| ensures listing[i] != listing[j] {
      BeforeIsStrict(names[i]);
    }
    forall k | 1 <= k <= n ensures k in listing {
      assert Name(objectName, timestamp, k) in names;
      var i :| 0 <= i < |names| && names[i] == Name(objectName, timestamp, k);
      NameInjective(objectName, timestamp, listing[i], k);
    }
    ListsAllOnce(listing, n);
  }
}
