/** The frequency band of `MUSIC`: the FFT bins whose centre frequency lies
    strictly between 800 Hz and 1400 Hz, in bin order. */
module Band {
  import opened Seqs

  const FftPoint: nat := 1024

  /** `librosa.fft_frequencies(sr=fs, n_fft=1024)[k]`. */
  function BinFrequency(k: nat, fs: nat): real
  {
    (k * fs) as real / FftPoint as real
  }

  predicate InBand(k: nat, fs: nat)
  {
    800.0 < BinFrequency(k, fs) < 1400.0
  }

  /** The indices selected by `(800 < fft_freq) * (fft_freq < 1400)`, over the
      `fftPoint // 2 + 1` bins. */
  function ValidBins(fs: nat): (r: seq<nat>)
    ensures forall k :: 0 <= k < |r| ==> r[k] <= FftPoint / 2 && InBand(r[k], fs)
    ensures forall k: nat :: k <= FftPoint / 2 && InBand(k, fs) ==> k in r
    ensures forall i, j :: 0 <= i < j < |r| ==> r[i] < r[j]
  {
    TrueIndices(seq(FftPoint / 2 + 1, (k: int) requires 0 <= k => InBand(k, fs)))
  }

  /** The band always fits the `fftPoint // 2 - 1` = 511 frequency slots of the
      `_power` accumulator, so the assignment at line 157 never indexes past
      it: bin 0 is never in the band, and bins 1 and 2 never both are. */
  lemma {:induction false} BandFitsPowerBuffer(fs: nat)
    ensures |ValidBins(fs)| <= FftPoint / 2 - 1
  {
    var r := ValidBins(fs);
    assert !InBand(0, fs);
    assert !(InBand(1, fs) && InBand(2, fs));
    if |r| >= 2 {
      assert r[0] >= 1;
      assert r[1] >= 3 by {
        if r[0] == 1 {
          assert !InBand(2, fs);
          assert r[1] != 2;
        }
      }
      AscendingGaps(r, 1, |r| - 1);
    }
  }

  lemma {:induction false} AscendingGaps(r: seq<nat>, i: nat, j: nat)
    requires i <= j < |r|
    requires forall a, b :: 0 <= a < b < |r| ==> r[a] < r[b]
    ensures r[j] >= r[i] + (j - i)
    decreases j - i
  {
    if i < j {
      AscendingGaps(r, i, j - 1);
    }
  }
}
