/** AudioDeviceInfo and AudioDevice: what the bridge knows about a device,
    which sample rates it accepts, and the search for the best accepted
    rate over a fixed table of common rates. */
module AudioDevices {
  /** AudioPortId's AP_UNSPECIFIED, and AudioBridge's NoDevice and
      DefaultDevice ids. */
  const ApUnspecified: int := 0
  const NoDevice: int := -1
  const DefaultDevice: int := -2

  const Int32Max: int := 0x7FFF_FFFF

  /** sampleRatesToTry_s, in increasing order. */
  const RatesToTry: seq<nat> := [8000, 11025, 12000, 16000, 22050, 24000, 32000, 44100, 48000, 88200, 96000, 192000]

  /** numSampleRatesToTry_s */
  const NumRatesToTry: nat := 12

  lemma RateBounded(j: nat)
    requires j < NumRatesToTry
    ensures 8000 <= RatesToTry[j] <= 192000
  {
  }

  lemma RatesIncrease(j: nat, k: nat)
    requires j < k < NumRatesToTry
    ensures RatesToTry[j] < RatesToTry[k]
  {
  }

  /** The device description; latencies (floating point) are left out. */
  datatype DeviceInfo = DeviceInfo(
    name: string,
    portId: int,
    deviceId: int,
    privateId: int,
    isAvailable: bool,
    isDefault: bool,
    maxInputChannels: int,
    maxOutputChannels: int,
    defaultSampleRate: int,
    supportedDataFormats: int,
    supportedSampleRates: seq<nat>)

  /** AudioDeviceInfo(): the name is empty and the private id and the rate
      list are left as the default-initialised members. */
  function DefaultInfo(): (r: DeviceInfo)
    ensures r.portId == ApUnspecified && r.deviceId == NoDevice
    ensures !r.isAvailable && !r.isDefault
    ensures r.maxInputChannels == 0 && r.maxOutputChannels == 0
    ensures r.defaultSampleRate == 0 && r.supportedDataFormats == 0 && r.supportedSampleRates == []
  {
    DeviceInfo("", ApUnspecified, NoDevice, 0, false, false, 0, 0, 0, 0, [])
  }

  predicate IsInput(info: DeviceInfo) { info.maxInputChannels > 0 }
  predicate IsOutput(info: DeviceInfo) { info.maxOutputChannels > 0 }
  predicate IsDuplex(info: DeviceInfo) { IsInput(info) && IsOutput(info) }

  /** AudioDeviceInfo::isSampleRateSupported: std::find over the cached
      list of rates. */
  predicate IsSampleRateSupported(info: DeviceInfo, rate: nat) {
    rate in info.supportedSampleRates
  }

  /** The sample formats of AudioDevice. */
  datatype SampleFormat = Int8 | Int16 | Int24 | Int32 | UInt8 | Float32 | Float64 | Custom

  /** An AudioDevice: its description and the stream settings. */
  datatype Device = Device(
    info: DeviceInfo,
    sampleRate: int,
    numChannels: int,
    bufferSize: nat,
    sampleFormat: SampleFormat,
    interleaved: bool)

  /** AudioDevice(deviceInfo): a copy of the description with the default
      stream settings. */
  function NewDevice(info: DeviceInfo): (d: Device)
    ensures d.info == info
    ensures d.sampleRate == 44100 && d.numChannels == 2 && d.bufferSize == 512
    ensures d.sampleFormat == Float32 && d.interleaved
  {
    Device(info, 44100, 2, 512, Float32, true)
  }

  /** AudioDevice::isSampleRateSupported: the cached list answers first;
      only a rate missing from it is put to the driver, whose answers are
      `driver`. */
  predicate DeviceAccepts(d: Device, driver: set<nat>, rate: nat) {
    IsSampleRateSupported(d.info, rate) || rate in driver
  }

  /** A cached rate is accepted whatever the driver would say, and
      otherwise the driver decides. */
  lemma CachedRateShortCircuits(d: Device, driver: set<nat>, rate: nat)
    ensures IsSampleRateSupported(d.info, rate) ==> DeviceAccepts(d, driver, rate)
    ensures !IsSampleRateSupported(d.info, rate) ==> (DeviceAccepts(d, driver, rate) <==> rate in driver)
  {
  }

  /** The set of rates a device description accepts. */
  function Accepted(info: DeviceInfo): (s: set<nat>)
    ensures forall r :: r in s <==> IsSampleRateSupported(info, r)
  {
    set r | r in info.supportedSampleRates
  }

  function Abs(x: int): nat { if x < 0 then -x else x }

  /** abs((int)sampleRate - (int)sampleRatesToTry_s[j]) */
  function Diff(rate: int, j: nat): nat
    requires j < NumRatesToTry
  {
    Abs(rate - RatesToTry[j])
  }

  /** Index b is the nearest to `rate` among indices from..to-1, the lowest
      such index on a tie. */
  predicate IsNearestIn(rate: int, from: nat, to: nat, b: nat)
    requires to <= NumRatesToTry
  {
    from <= b < to
    && (forall k :: from <= k < to ==> Diff(rate, b) <= Diff(rate, k))
    && (forall k :: from <= k < b ==> Diff(rate, k) > Diff(rate, b))
  }

  /** There is one nearest index. */
  lemma NearestUnique(rate: int, from: nat, to: nat, b: nat, c: nat)
    requires to <= NumRatesToTry
    requires IsNearestIn(rate, from, to, b) && IsNearestIn(rate, from, to, c)
    ensures b == c
  {
    var db, dc := Diff(rate, b), Diff(rate, c);
  }

  /** The nearest table index at or after `from`, defined from the top of
      the table down. */
  function NearestIndex(rate: int, from: nat): (b: nat)
    requires from < NumRatesToTry
    ensures from <= b < NumRatesToTry
    decreases NumRatesToTry - from
  {
    if from == NumRatesToTry - 1 then from
    else
      var b := NearestIndex(rate, from + 1);
      if Diff(rate, from) <= Diff(rate, b) then from else b
  }

  /** NearestIndex finds the first nearest index of the window. */
  lemma {:induction false} NearestIndexIsNearest(rate: int, from: nat)
    requires from < NumRatesToTry
    ensures IsNearestIn(rate, from, NumRatesToTry, NearestIndex(rate, from))
    decreases NumRatesToTry - from
  {
    if from < NumRatesToTry - 1 {
      NearestIndexIsNearest(rate, from + 1);
      NearestExtend(rate, from, NearestIndex(rate, from + 1));
    }
  }

  /** Widening the window by one index keeps the first nearest index, or
      replaces it with the new one when that is at least as near. */
  lemma NearestExtend(rate: int, from: nat, b: nat)
    requires from + 1 < NumRatesToTry && IsNearestIn(rate, from + 1, NumRatesToTry, b)
    ensures IsNearestIn(rate, from, NumRatesToTry, if Diff(rate, from) <= Diff(rate, b) then from else b)
  {
    var db := Diff(rate, b);
    if Diff(rate, from) <= db {
      forall k | from < k < NumRatesToTry
        ensures Diff(rate, from) <= Diff(rate, k)
      {
        assert db <= Diff(rate, k);
      }
    }
  }

  /** The first table rate at or after index `i` that is accepted, or 0. */
  function FirstAcceptedFrom(accepts: set<nat>, i: nat): nat
    decreases NumRatesToTry - i
  {
    if i >= NumRatesToTry then 0
    else if RatesToTry[i] in accepts then RatesToTry[i]
    else FirstAcceptedFrom(accepts, i + 1)
  }

  /** What FirstAcceptedFrom finds: 0, or an accepted table rate from
      index i on with no accepted table rate before it. */
  lemma {:induction false} FirstAcceptedSound(accepts: set<nat>, i: nat)
    ensures var r := FirstAcceptedFrom(accepts, i);
      r == 0 || (r in accepts && exists j :: i <= j < NumRatesToTry && r == RatesToTry[j])
    ensures var r := FirstAcceptedFrom(accepts, i);
      r != 0 ==> forall j :: i <= j < NumRatesToTry && RatesToTry[j] < r ==> RatesToTry[j] !in accepts
    ensures var r := FirstAcceptedFrom(accepts, i);
      r == 0 <==> forall j :: i <= j < NumRatesToTry ==> RatesToTry[j] !in accepts
    decreases NumRatesToTry - i
  {
    if i < NumRatesToTry {
      FirstAcceptedSound(accepts, i + 1);
      if RatesToTry[i] in accepts {
        forall j | i <= j < NumRatesToTry && RatesToTry[j] < RatesToTry[i]
          ensures false
        {
          if i < j {
            RatesIncrease(i, j);
          }
        }
      } else {
        var r := FirstAcceptedFrom(accepts, i + 1);
        if r != 0 {
          forall j | i < j < NumRatesToTry
            ensures RatesToTry[i] < RatesToTry[j]
          {
            RatesIncrease(i, j);
          }
        }
      }
    }
  }

  /** The inner loop of findBestSampleRate: the nearest table rate to
      `rate` from index `from` on, the first one on a tie (only a strictly
      smaller difference replaces the best). */
  method NearestFrom(rate: int, from: nat) returns (bestIndex: nat)
    requires 0 <= rate <= Int32Max && from < NumRatesToTry
    ensures bestIndex == NearestIndex(rate, from)
  {
    var minDiff: int := Int32Max;
    bestIndex := from;
    var j := from;
    while j < NumRatesToTry
      invariant from <= j <= NumRatesToTry
      invariant j == from ==> minDiff == Int32Max
      invariant j > from ==> IsNearestIn(rate, from, j, bestIndex) && minDiff == Diff(rate, bestIndex)
    {
      var diff := Diff(rate, j);
      if diff < minDiff {
        bestIndex := j;
        minDiff := diff;
      }
      j := j + 1;
    }
    NearestIndexIsNearest(rate, from);
    NearestUnique(rate, from, NumRatesToTry, bestIndex, NearestIndex(rate, from));
  }

  /** A table rate is its own nearest once its index is in the window. */
  lemma NearestOfTableRate(m: nat, from: nat)
    requires from <= m < NumRatesToTry
    ensures NearestIndex(RatesToTry[m], from) == m
  {
    var rate := RatesToTry[m];
    forall k | from <= k < m
      ensures Diff(rate, k) > Diff(rate, m)
    {
      RatesIncrease(k, m);
    }
    NearestIndexIsNearest(rate, from);
    NearestUnique(rate, from, NumRatesToTry, m, NearestIndex(rate, from));
  }

  /** A table rate just below the window is nearest to the window's first
      entry. */
  lemma NearestAboveTableRate(from: nat)
    requires 0 < from < NumRatesToTry
    ensures NearestIndex(RatesToTry[from - 1], from) == from
  {
    var rate := RatesToTry[from - 1];
    forall k | from <= k < NumRatesToTry
      ensures Diff(rate, from) <= Diff(rate, k)
    {
      RatesIncrease(from - 1, from);
      if k > from {
        RatesIncrease(from, k);
      }
    }
    NearestIndexIsNearest(rate, from);
    NearestUnique(rate, from, NumRatesToTry, from, NearestIndex(rate, from));
  }

  function Max(a: nat, b: nat): nat { if a < b then b else a }

  /** findBestSampleRate(sampleRate). Each round looks for the nearest
      table rate to the current one from index i on and stops if the
      device accepts it (`accepts` are the rates isSampleRateSupported,
      a virtual call, says yes to). After the first round the current rate
      is a table rate, so the rounds walk up the table from the rate
      nearest the request; the result is the first accepted table rate at
      or above it, or 0. There are at most 12 rounds. */
  method FindBestSampleRate(accepts: set<nat>, sampleRate: nat) returns (r: nat)
    requires sampleRate <= Int32Max
    ensures r == FirstAcceptedFrom(accepts, NearestIndex(sampleRate, 0))
  {
    ghost var b0 := NearestIndex(sampleRate, 0);
    ghost var m: nat := b0;
    var rate := sampleRate;
    var i: nat := 0;
    while i < NumRatesToTry
      invariant RateSearch(accepts, b0, i, m, rate)
      invariant i == 0 ==> rate == sampleRate
    {
      var bestIndex := NearestFrom(rate, i);
      RoundIndex(b0, i, m, rate);
      RateRound(accepts, b0, i, m, rate, bestIndex);
      rate := RatesToTry[bestIndex];
      if rate in accepts {
        return rate;
      }
      m := bestIndex;
      i := i + 1;
    }
    RateSearchDone(accepts, b0, m, rate);
    return 0;
  }

  /** The state of findBestSampleRate's search after round i: the current
      rate is the rejected table rate at m, the higher of the rate nearest
      the request and i - 1, and the answer lies above m. */
  ghost predicate RateSearch(accepts: set<nat>, b0: nat, i: nat, m: nat, rate: int)
  {
    b0 < NumRatesToTry && i <= NumRatesToTry && m < NumRatesToTry && 0 <= rate <= Int32Max
    && (i > 0 ==>
          m == Max(b0, i - 1) && rate == RatesToTry[m] && RatesToTry[m] !in accepts
          && FirstAcceptedFrom(accepts, b0) == FirstAcceptedFrom(accepts, m + 1))
  }

  /** The nearest table rate from index i on is the higher of b0, the
      rate nearest the request, and i. */
  lemma RoundIndex(b0: nat, i: nat, m: nat, rate: int)
    requires b0 < NumRatesToTry && i < NumRatesToTry
    requires i == 0 ==> b0 == NearestIndex(rate, i)
    requires i > 0 ==> m == Max(b0, i - 1) && rate == RatesToTry[m]
    ensures NearestIndex(rate, i) == Max(b0, i)
  {
    if i > 0 {
      if b0 >= i {
        NearestOfTableRate(b0, i);
      } else {
        NearestAboveTableRate(i);
      }
    }
  }

  /** One round of the search, given its nearest index: an accepted rate
      is the answer, otherwise the search moves on to it. */
  lemma RateRound(accepts: set<nat>, b0: nat, i: nat, m: nat, rate: int, bestIndex: nat)
    requires RateSearch(accepts, b0, i, m, rate) && i < NumRatesToTry
    requires bestIndex == Max(b0, i)
    ensures bestIndex < NumRatesToTry
    ensures RatesToTry[bestIndex] in accepts ==> RatesToTry[bestIndex] == FirstAcceptedFrom(accepts, b0)
    ensures RatesToTry[bestIndex] !in accepts ==>
      RateSearch(accepts, b0, i + 1, bestIndex, RatesToTry[bestIndex])
  {
    RateBounded(bestIndex);
    if i == 0 || b0 >= i {
      FirstAcceptedStep(accepts, b0);
    } else {
      FirstAcceptedStep(accepts, i);
    }
  }

  lemma RateSearchDone(accepts: set<nat>, b0: nat, m: nat, rate: int)
    requires RateSearch(accepts, b0, NumRatesToTry, m, rate)
    ensures FirstAcceptedFrom(accepts, b0) == 0
  {
    assert m + 1 == NumRatesToTry;
  }

  lemma FirstAcceptedStep(accepts: set<nat>, k: nat)
    requires k < NumRatesToTry
    ensures FirstAcceptedFrom(accepts, k)
      == if RatesToTry[k] in accepts then RatesToTry[k] else FirstAcceptedFrom(accepts, k + 1)
  {
  }

  /** The result is 0 or an accepted table rate; an accepted nearest table
      rate is returned, an accepted request from the table in particular;
      the result is never below the table rate nearest the request, and it
      is 0 only when no table rate from there up is accepted. */
  lemma BestRateProperties(accepts: set<nat>, sampleRate: nat)
    requires sampleRate <= Int32Max
    ensures var r := FirstAcceptedFrom(accepts, NearestIndex(sampleRate, 0));
      r == 0 || (r in accepts && r in RatesToTry)
    ensures var b0 := NearestIndex(sampleRate, 0);
      RatesToTry[b0] in accepts ==> FirstAcceptedFrom(accepts, b0) == RatesToTry[b0]
    ensures sampleRate in RatesToTry && sampleRate in accepts ==>
      FirstAcceptedFrom(accepts, NearestIndex(sampleRate, 0)) == sampleRate
    ensures var b0 := NearestIndex(sampleRate, 0);
      FirstAcceptedFrom(accepts, b0) == 0 || FirstAcceptedFrom(accepts, b0) >= RatesToTry[b0]
    ensures var b0 := NearestIndex(sampleRate, 0);
      FirstAcceptedFrom(accepts, b0) == 0 <==> forall j :: b0 <= j < NumRatesToTry ==> RatesToTry[j] !in accepts
  {
    var b0 := NearestIndex(sampleRate, 0);
    var r := FirstAcceptedFrom(accepts, b0);
    FirstAcceptedSound(accepts, b0);
    if r != 0 {
      var j :| b0 <= j < NumRatesToTry && r == RatesToTry[j];
      if b0 < j {
        RatesIncrease(b0, j);
      }
    }
    if sampleRate in RatesToTry {
      var m :| 0 <= m < |RatesToTry| && RatesToTry[m] == sampleRate;
      NearestOfTableRate(m, 0);
    }
  }

  /** The search never goes down the table: when every rate the device
      accepts lies below the table rate nearest the request, the answer
      is 0, even though a lower table rate would be accepted. */
  lemma NoRateBelowNearest(accepts: set<nat>, sampleRate: nat)
    requires forall r :: r in accepts ==> r < RatesToTry[NearestIndex(sampleRate, 0)]
    ensures FirstAcceptedFrom(accepts, NearestIndex(sampleRate, 0)) == 0
  {
    var b0 := NearestIndex(sampleRate, 0);
    FirstAcceptedSound(accepts, b0);
    forall j | b0 <= j < NumRatesToTry
      ensures RatesToTry[j] !in accepts
    {
      if b0 < j {
        RatesIncrease(b0, j);
      }
    }
  }

  /** For instance, asking for 48000 Hz from a device that accepts only
      44100 Hz, itself a table rate, yields 0. */
  lemma NoRateBelowNearestAt48000()
    ensures 44100 in RatesToTry
    ensures FirstAcceptedFrom({44100}, NearestIndex(48000, 0)) == 0
  {
    NearestOfTableRate(8, 0);
    NoRateBelowNearest({44100}, 48000);
  }

  /** A description as AudioDeviceInfo() leaves it claims no channels and
      answers only the NoDevice id. */
  lemma DefaultInfoIsInert()
    ensures !IsInput(DefaultInfo()) && !IsOutput(DefaultInfo())
    ensures forall r: nat :: !IsSampleRateSupported(DefaultInfo(), r)
  {
  }
}
