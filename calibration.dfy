/** The literal calibration tables the engine is built from, and the static
    label, unit and name lookups of the time/div, volt/div and channel
    selectors. The label and name lookups are defined exactly on their table's
    index range; the unit lookup is total. */
module Calibration {
  import opened Wire

  /** `delays`: sample-delay codes for the time/div steps, fastest first. */
  const Delays: seq<U16> := [0, 6, 37, 147, 454, 1549, 4600, 15000]

  /** `dacvals`: gain DAC codes for the volt/div steps, 10 V/div first. */
  const DacVals: seq<U16> := [4095, 2048, 819, 410, 205, 82, 41, 20]

  const TdivLabels: seq<string> :=
    ["17.5", "100", "300", "1", "3", "10", "30", "100", "300", "1000", "3000"]
  const VdivLabels: seq<string> := ["10", "5", "2", "1", "0.5", "0.2", "0.1", "0.05"]
  const ChannelNames: seq<string> := ["Channel 1", "Channel 2", "Trigger Level"]

  /** Tdiv_1, the first millisecond step. The enumeration is declared in
      shared/common.h, which is not part of this model; the value is the
      position of the "1" label in TdivLabels. */
  const TdivOne: nat := 3

  /** getTdivUnit has no range check, so it is defined on every step. */
  function GetTdivUnit(v: nat): (unit: string)
    ensures unit == "usec/div" <==> v < TdivOne
    ensures unit == "msec/div" <==> v >= TdivOne
  {
    if v < TdivOne then "usec/div" else "msec/div"
  }

  /** getTdivLabel: asserted to be called on 0..10 only. */
  function GetTdivLabel(v: nat): (text: string)
    requires v < |TdivLabels|
    ensures text in TdivLabels && |text| > 0
  {
    TdivLabels[v]
  }

  /** getVdivLabel: asserted to be called on 0..7 only. */
  function GetVdivLabel(v: nat): (text: string)
    requires v < |VdivLabels|
    ensures text in VdivLabels && |text| > 0
  {
    VdivLabels[v]
  }

  /** getChannelName: asserted to be called on 0..2 only. */
  function GetChannelName(v: nat): (name: string)
    requires v < |ChannelNames|
    ensures name in ChannelNames && |name| > 0
  {
    ChannelNames[v]
  }

  /** A time/div label alone is ambiguous ("100" and "300" occur twice), but
      with its unit it names exactly one step. */
  lemma {:induction false} TdivLabelAndUnitIdentifyStep(v: nat, w: nat)
    requires v < |TdivLabels| && w < |TdivLabels|
    requires GetTdivLabel(v) == GetTdivLabel(w) && GetTdivUnit(v) == GetTdivUnit(w)
    ensures v == w
  {
  }

  /** Every volt/div step has its own label. */
  lemma {:induction false} VdivLabelIdentifiesStep(v: nat, w: nat)
    requires v < |VdivLabels| && w < |VdivLabels|
    requires GetVdivLabel(v) == GetVdivLabel(w)
    ensures v == w
  {
  }

  /** Smaller volt/div steps get strictly smaller DAC codes; longer time/div
      steps get strictly longer delay codes. */
  lemma TablesStrictlyMonotonic()
    ensures forall a, b :: 0 <= a < b < |DacVals| ==> DacVals[a] > DacVals[b]
    ensures forall a, b :: 0 <= a < b < |Delays| ==> Delays[a] < Delays[b]
  {
  }
}
