/**
 Raster assets are sent to the vision model in batches
 (src/application/raster-claim-inspector.ts, createModelBatches, inspectBatches, validateModelOutput).
 */
module RasterBatches {
  import opened Wrappers
  import opened Lists

  const MAX_MODEL_BATCH_ASSETS: nat := 16
  const MAX_MODEL_BATCH_BASE64_BYTES: nat := 8 * 1024 * 1024

  /** What batching sees of an asset: its position among all assets and the length of its base64 text. */
  datatype Asset = Asset(index: nat, base64Bytes: nat)

  function Weight(batch: seq<Asset>): nat {
    if batch == [] then 0 else batch[0].base64Bytes + Weight(batch[1..])
  }

  predicate Fits(batch: seq<Asset>) {
    0 < |batch| <= MAX_MODEL_BATCH_ASSETS && Weight(batch) < MAX_MODEL_BATCH_BASE64_BYTES
  }

  /** A way to send the assets in order: batches that fit and together are the assets. */
  ghost predicate Batching(assets: seq<Asset>, batches: seq<seq<Asset>>) {
    Concat(batches) == assets && forall k :: 0 <= k < |batches| ==> Fits(batches[k])
  }

  /** No batch could have taken the first asset of the next one. */
  ghost predicate Greedy(batches: seq<seq<Asset>>) {
    && (forall k :: 0 <= k < |batches| ==> batches[k] != [])
    && (forall k :: 0 < k < |batches| ==> !Fits(batches[k - 1] + batches[k][..1]))
  }

  lemma {:induction false} WeightConcat(a: seq<Asset>, b: seq<Asset>)
    ensures Weight(a + b) == Weight(a) + Weight(b)
  {
    if a == [] {
      assert a + b == b;
    } else {
      assert (a + b)[1..] == a[1..] + b;
      WeightConcat(a[1..], b);
    }
  }

  /** A non-empty stretch of a batch that fits, fits. */
  lemma StretchFits(batch: seq<Asset>, i: nat, j: nat)
    requires Fits(batch) && i < j <= |batch|
    ensures Fits(batch[i..j])
  {
    assert batch == batch[..i] + (batch[i..j] + batch[j..]);
    WeightConcat(batch[..i], batch[i..j] + batch[j..]);
    WeightConcat(batch[i..j], batch[j..]);
  }

  /**
   Greedy batches of the last part of a list are at most as many as any batches of the whole list:
   the greedy ones are always at least as far along.
   */
  lemma {:induction false} GreedyIsLeast(part: seq<Asset>, whole: seq<Asset>, greedy: seq<seq<Asset>>, other: seq<seq<Asset>>)
    requires |part| <= |whole| && whole[|whole| - |part|..] == part
    requires Batching(part, greedy) && Greedy(greedy) && Batching(whole, other)
    ensures |greedy| <= |other|
  {
    if |greedy| > 0 {
      var first, next := greedy[0], other[0];
      var part', whole' := part[|first|..], whole[|next|..];
      assert part' == Concat(greedy[1..]) && whole' == Concat(other[1..]);
      if |greedy| > 1 {
        KeepsAhead(part, whole, greedy, next);
        assert whole'[|whole'| - |part'|..] == part';
        GreedyIsLeast(part', whole', greedy[1..], other[1..]);
      }
    }
  }

  /** A batch that fits cannot reach past where the first two greedy batches meet. */
  lemma KeepsAhead(part: seq<Asset>, whole: seq<Asset>, greedy: seq<seq<Asset>>, next: seq<Asset>)
    requires |part| <= |whole| && whole[|whole| - |part|..] == part
    requires |greedy| > 1 && Concat(greedy) == part && Greedy(greedy)
    requires Fits(next) && next <= whole
    ensures |part| - |greedy[0]| <= |whole| - |next|
  {
    var skip := |whole| - |part|;
    var reach := |greedy[0]| + 1;
    assert part == greedy[0] + (greedy[1] + Concat(greedy[2..])) by { assert greedy[1..][1..] == greedy[2..]; }
    assert whole[skip..skip + reach] == part[..reach] == greedy[0] + greedy[1][..1];
    if |next| >= skip + reach {
      ReachedFits(whole, next, skip, skip + reach);
    }
  }

  lemma ReachedFits(whole: seq<Asset>, next: seq<Asset>, i: nat, j: nat)
    requires Fits(next) && next <= whole && i < j <= |next|
    ensures Fits(whole[i..j])
  {
    StretchFits(next, i, j);
    assert next[i..j] == whole[i..j];
  }

  lemma GreedyGrows(batches: seq<seq<Asset>>, current: seq<Asset>, asset: Asset)
    requires current != [] && Greedy(batches + [current])
    ensures Greedy(batches + [current + [asset]])
  {
    var before, after := batches + [current], batches + [current + [asset]];
    assert (current + [asset])[..1] == current[..1];
    forall k | 0 <= k < |after| ensures after[k] != [] { assert before[k] != []; }
    forall k | 0 < k < |after| ensures !Fits(after[k - 1] + after[k][..1]) {
      assert !Fits(before[k - 1] + before[k][..1]);
    }
  }

  lemma GreedyOpens(batches: seq<seq<Asset>>, current: seq<Asset>, asset: Asset)
    requires Greedy(batches + [current]) && !Fits(current + [asset])
    ensures Greedy(batches + [current] + [[asset]])
  {
    var before := batches + [current];
    var after := before + [[asset]];
    assert [asset][..1] == [asset];
    forall k | 0 < k < |after| ensures !Fits(after[k - 1] + after[k][..1]) {
      if k < |before| { assert !Fits(before[k - 1] + before[k][..1]); }
    }
  }

  /** createModelBatches; None is the error for an asset that no batch can hold. */
  method CreateModelBatches(assets: seq<Asset>) returns (r: Option<seq<seq<Asset>>>)
    ensures r.Some? ==> Batching(assets, r.value)
    ensures r.Some? ==> forall other :: Batching(assets, other) ==> |r.value| <= |other|
    ensures r.None? ==> forall other :: !Batching(assets, other)
  {
    var batches: seq<seq<Asset>> := [];
    var current: seq<Asset> := [];
    var base64Bytes: nat := 0;
    for i := 0 to |assets|
      invariant Concat(batches) + current == assets[..i]
      invariant forall k :: 0 <= k < |batches| ==> Fits(batches[k])
      invariant current == [] ==> i == 0 && batches == []
      invariant current != [] ==> Fits(current) && Greedy(batches + [current])
      invariant base64Bytes == Weight(current)
    {
      var asset := assets[i];
      if asset.base64Bytes >= MAX_MODEL_BATCH_BASE64_BYTES {
        forall other ensures !Batching(assets, other) {
          if Batching(assets, other) { HeavyFitsNowhere(assets, other, i); }
        }
        return None;
      }
      WeightConcat(current, [asset]);
      if |current| >= MAX_MODEL_BATCH_ASSETS
         || (|current| > 0 && base64Bytes + asset.base64Bytes >= MAX_MODEL_BATCH_BASE64_BYTES)
      {
        ConcatPush(batches, current);
        GreedyOpens(batches, current, asset);
        batches := batches + [current];
        current, base64Bytes := [], 0;
      } else if |current| > 0 {
        GreedyGrows(batches, current, asset);
      }
      assert [] + [asset] == [asset];
      current := current + [asset];
      base64Bytes := base64Bytes + asset.base64Bytes;
    }
    assert assets[..|assets|] == assets;
    if |current| > 0 {
      ConcatPush(batches, current);
      batches := batches + [current];
    }
    forall other | Batching(assets, other) ensures |batches| <= |other| {
      GreedyIsLeast(assets, assets, batches, other);
    }
    return Some(batches);
  }

  lemma {:induction false} HeavyFitsNowhere(assets: seq<Asset>, batches: seq<seq<Asset>>, i: nat)
    requires Batching(assets, batches) && i < |assets|
    ensures assets[i].base64Bytes < MAX_MODEL_BATCH_BASE64_BYTES
    decreases |batches|
  {
    if i < |batches[0]| {
      StretchFits(batches[0], i, i + 1);
    } else {
      HeavyFitsNowhere(Concat(batches[1..]), batches[1..], i - |batches[0]|);
    }
  }
}
