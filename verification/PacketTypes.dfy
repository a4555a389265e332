/** The eight display categories of src/web/packet-type-buckets.js, and sums over counters kept per key. */
module PacketTypes {

  // ---------------------------------------------------------------- sums over a map of counters

  function Get<K>(m: map<K, int>, k: K): int {
    if k in m then m[k] else 0
  }

  /** The sum of the counters of these keys, an absent key counting zero. */
  ghost function Sum(m: map<string, int>, keys: set<string>): int {
    if keys == {} then 0
    else
      var k :| k in keys;
      Get(m, k) + Sum(m, keys - {k})
  }

  lemma {:induction false} SumWithout(m: map<string, int>, keys: set<string>, k: string)
    requires k in keys
    ensures Sum(m, keys) == Get(m, k) + Sum(m, keys - {k})
    decreases keys
  {
    var first :| first in keys && Sum(m, keys) == Get(m, first) + Sum(m, keys - {first});
    if first != k {
      SumWithout(m, keys - {first}, k);
      SumWithout(m, keys - {k}, first);
      assert keys - {first} - {k} == keys - {k} - {first};
    }
  }

  lemma {:induction false} SumAdds(a: map<string, int>, b: map<string, int>, total: map<string, int>, keys: set<string>)
    requires forall k | k in keys :: Get(total, k) == Get(a, k) + Get(b, k)
    ensures Sum(total, keys) == Sum(a, keys) + Sum(b, keys)
  {
    if keys != {} {
      var k :| k in keys;
      SumWithout(a, keys, k);
      SumWithout(b, keys, k);
      SumWithout(total, keys, k);
      SumAdds(a, b, total, keys - {k});
    }
  }

  lemma {:induction false} SumSame(a: map<string, int>, b: map<string, int>, keys: set<string>)
    requires forall k | k in keys :: Get(a, k) == Get(b, k)
    ensures Sum(a, keys) == Sum(b, keys)
  {
    if keys != {} {
      var k :| k in keys;
      SumWithout(a, keys, k);
      SumWithout(b, keys, k);
      SumSame(a, b, keys - {k});
    }
  }

  /** Keys the map lacks add nothing. */
  lemma {:induction false} SumOfPresent(m: map<string, int>, keys: set<string>)
    ensures Sum(m, keys) == Sum(m, keys * m.Keys)
  {
    if keys != {} {
      var k :| k in keys;
      SumWithout(m, keys, k);
      SumOfPresent(m, keys - {k});
      if k in m {
        SumWithout(m, keys * m.Keys, k);
        assert keys * m.Keys - {k} == (keys - {k}) * m.Keys;
      } else {
        assert keys * m.Keys == (keys - {k}) * m.Keys;
      }
    }
  }

  // ---------------------------------------------------------------- the categories

  const BUCKET_KEYS := {"advert", "txtMsg", "grpTxt", "ack", "path", "trace", "grpData", "other"}

  /** Every code belongs to one category; those not listed, and any future one, are "other". */
  function BucketKeyForCode(code: string): (key: string)
    ensures key in BUCKET_KEYS
  {
    if code == "4" then "advert"
    else if code == "2" then "txtMsg"
    else if code == "5" then "grpTxt"
    else if code == "3" then "ack"
    else if code == "8" then "path"
    else if code == "9" then "trace"
    else if code == "6" then "grpData"
    else "other"
  }

  /** The codes of each category; "other" has all the rest, those the mesh will know some day included. */
  lemma CodesAreListed(code: string)
    ensures BucketKeyForCode(code) == "advert" <==> code == "4"
    ensures BucketKeyForCode(code) == "txtMsg" <==> code == "2"
    ensures BucketKeyForCode(code) == "grpTxt" <==> code == "5"
    ensures BucketKeyForCode(code) == "ack" <==> code == "3"
    ensures BucketKeyForCode(code) == "path" <==> code == "8"
    ensures BucketKeyForCode(code) == "trace" <==> code == "9"
    ensures BucketKeyForCode(code) == "grpData" <==> code == "6"
    ensures BucketKeyForCode(code) == "other" <==> code !in {"2", "3", "4", "5", "6", "8", "9"}
  {
  }

  function CodesOf(codes: set<string>, key: string): set<string> {
    set c | c in codes && BucketKeyForCode(c) == key
  }

  /** What a category's counter should be: the sum over its codes. */
  ghost function BucketTotal(byCode: map<string, int>, key: string): int {
    Sum(byCode, CodesOf(byCode.Keys, key))
  }

  /** Each category's counter is the sum over its codes. */
  ghost predicate Recategorized(counts: map<string, int>, byCode: map<string, int>) {
    forall key {:trigger Get(counts, key)} :: Get(counts, key) == BucketTotal(byCode, key)
  }

  /** The total over any code set that covers the map. */
  lemma BucketTotalOver(byCode: map<string, int>, codes: set<string>, key: string)
    requires byCode.Keys <= codes
    ensures BucketTotal(byCode, key) == Sum(byCode, CodesOf(codes, key))
  {
    SumOfPresent(byCode, CodesOf(codes, key));
    assert CodesOf(codes, key) * byCode.Keys == CodesOf(byCode.Keys, key);
  }

  /** The categories so far, for the codes already folded. */
  ghost predicate Folded(counts: map<string, int>, byCode: map<string, int>, done: set<string>) {
    && counts.Keys <= BUCKET_KEYS
    && forall key {:trigger CodesOf(done, key)} ::
         && Get(counts, key) == Sum(byCode, CodesOf(done, key))
         && (key in counts <==> CodesOf(done, key) != {})
  }

  lemma FoldOne(counts: map<string, int>, byCode: map<string, int>, done: set<string>, code: string)
    requires Folded(counts, byCode, done) && code in byCode && code !in done
    ensures var key := BucketKeyForCode(code);
            Folded(counts[key := Get(counts, key) + byCode[code]], byCode, done + {code})
  {
    var own := BucketKeyForCode(code);
    var after := counts[own := Get(counts, own) + byCode[code]];
    forall key
      ensures Get(after, key) == Sum(byCode, CodesOf(done + {code}, key))
      ensures key in after <==> CodesOf(done + {code}, key) != {}
    {
      assert Get(counts, key) == Sum(byCode, CodesOf(done, key));
      if key == own {
        assert code in CodesOf(done + {code}, key);
        SumWithout(byCode, CodesOf(done + {code}, key), code);
        assert CodesOf(done + {code}, key) - {code} == CodesOf(done, key);
      } else {
        assert CodesOf(done + {code}, key) == CodesOf(done, key);
      }
    }
  }

  lemma NoneFolded(byCode: map<string, int>)
    ensures Folded(map[], byCode, {})
  {
    assert forall key :: CodesOf({}, key) == {};
  }

  lemma FoldedAll(counts: map<string, int>, byCode: map<string, int>)
    requires Folded(counts, byCode, byCode.Keys)
    ensures Recategorized(counts, byCode)
    ensures forall key :: key in counts <==> exists c :: c in byCode && BucketKeyForCode(c) == key
  {
    forall key
      ensures Get(counts, key) == BucketTotal(byCode, key)
      ensures key in counts <==> exists c :: c in byCode && BucketKeyForCode(c) == key
    {
      var own := CodesOf(byCode.Keys, key);
      if c :| c in own {
        assert c in byCode && BucketKeyForCode(c) == key;
      }
      if c :| c in byCode && BucketKeyForCode(c) == key {
        assert c in own;
      }
    }
  }

  /** Re-keys raw codes into the categories, summing codes that share one; the order of the entries does not matter. */
  method BucketPacketsByType(packetsByType: map<string, int>) returns (counts: map<string, int>)
    ensures Recategorized(counts, packetsByType)
    ensures forall key :: key in counts <==> exists c :: c in packetsByType && BucketKeyForCode(c) == key
    ensures counts.Keys <= BUCKET_KEYS
  {
    counts := map[];
    var todo, done := packetsByType.Keys, {};
    NoneFolded(packetsByType);
    while todo != {}
      invariant done + todo == packetsByType.Keys && done !! todo
      invariant Folded(counts, packetsByType, done)
      decreases |todo|
    {
      var code :| code in todo;
      var key := BucketKeyForCode(code);
      FoldOne(counts, packetsByType, done, code);
      counts := counts[key := Get(counts, key) + packetsByType[code]];
      todo, done := todo - {code}, done + {code};
    }
    assert done == packetsByType.Keys;
    FoldedAll(counts, packetsByType);
  }

  /** The categories partition the codes, so re-keying conserves the grand total. */
  lemma {:induction false} CategoriesConserve(byCode: map<string, int>, counts: map<string, int>, codes: set<string>)
    requires forall key :: Get(counts, key) == Sum(byCode, CodesOf(codes, key))
    ensures Sum(counts, BUCKET_KEYS) == Sum(byCode, codes)
    decreases codes
  {
    if codes == {} {
      assert forall key :: CodesOf(codes, key) == {};
      NothingCounted(counts, BUCKET_KEYS);
    } else {
      var c :| c in codes;
      var own, rest := BucketKeyForCode(c), codes - {c};
      var smaller := counts[own := Get(counts, own) - Get(byCode, c)];
      forall key
        ensures Get(smaller, key) == Sum(byCode, CodesOf(rest, key))
      {
        assert Get(counts, key) == Sum(byCode, CodesOf(codes, key));
        if key == own {
          SumWithout(byCode, CodesOf(codes, key), c);
          assert CodesOf(codes, key) - {c} == CodesOf(rest, key);
        } else {
          assert CodesOf(codes, key) == CodesOf(rest, key);
        }
      }
      CategoriesConserve(byCode, smaller, rest);
      SumWithout(byCode, codes, c);
      SumWithout(counts, BUCKET_KEYS, own);
      SumWithout(smaller, BUCKET_KEYS, own);
      SumSame(counts, smaller, BUCKET_KEYS - {own});
    }
  }

  lemma {:induction false} NothingCounted(m: map<string, int>, keys: set<string>)
    requires forall k | k in keys :: Get(m, k) == 0
    ensures Sum(m, keys) == 0
  {
    if keys != {} {
      var k :| k in keys;
      SumWithout(m, keys, k);
      NothingCounted(m, keys - {k});
    }
  }
}
