/** The fixed, ordered feature schema the classifier was trained on. */
module Schema {
  import opened Seqs

  /** The decimal digit for `d`. */
  function Digit(d: nat): char
    requires d < 10
  {
    "0123456789"[d]
  }

  /** Python's `str(n)` for a natural number: its decimal digits, most
      significant first, with no leading zero. */
  function NatToString(n: nat): (s: string)
    ensures |s| >= 1
    ensures n >= 10 ==> |s| >= 2
    ensures forall k :: 0 <= k < |s| ==> '0' <= s[k] <= '9'
    decreases n
  {
    if n < 10 then [Digit(n)] else NatToString(n / 10) + [Digit(n % 10)]
  }

  /** `[f"sensor_{i}" for i in range(lo, hi)]`. */
  function SensorNames(lo: nat, hi: nat): (r: seq<string>)
    ensures |r| == if lo <= hi then hi - lo else 0
    ensures forall k :: 0 <= k < |r| ==> r[k] == "sensor_" + NatToString(lo + k)
    decreases hi - lo
  {
    if lo >= hi then [] else ["sensor_" + NatToString(lo)] + SensorNames(lo + 1, hi)
  }

  /** The three operational settings written out in the source. */
  function OperationalSettings(): seq<string> {
    ["operational_setting_1", "operational_setting_2", "operational_setting_3"]
  }

  /** `feature_cols`: the operational settings followed by `sensor_1` .. `sensor_21`. */
  function FeatureCols(): (r: seq<string>)
    ensures |r| == 3 + SensorCount == 24
  {
    OperationalSettings() + SensorNames(1, SensorCount + 1)
  }

  /** The number of sensor channels in the schema. */
  const SensorCount: nat := 21

  /** The schema has 24 names: the three operational settings, then
      `sensor_1` .. `sensor_21` in order. */
  lemma FeatureColsShape()
    ensures |FeatureCols()| == 24
    ensures FeatureCols()[..3] == ["operational_setting_1", "operational_setting_2", "operational_setting_3"]
    ensures forall k :: 3 <= k < 24 ==> FeatureCols()[k] == "sensor_" + NatToString(k - 2)
    ensures FeatureCols()[3] == "sensor_1" && FeatureCols()[23] == "sensor_21"
  {
    assert FeatureCols()[3] == "sensor_" + NatToString(1);
    assert FeatureCols()[23] == "sensor_" + NatToString(21);
    assert NatToString(21) == NatToString(2) + [Digit(1)];
  }

  lemma DigitInjective(a: nat, b: nat)
    requires a < 10 && b < 10 && Digit(a) == Digit(b)
    ensures a == b
  {
  }

  /** Distinct numbers print differently. */
  lemma {:induction false} NatToStringInjective(a: nat, b: nat)
    requires NatToString(a) == NatToString(b)
    ensures a == b
    decreases a
  {
    var s := NatToString(a);
    if a < 10 && b < 10 {
      DigitInjective(a, b);
    } else if a >= 10 && b >= 10 {
      assert s[|s| - 1] == Digit(a % 10) && s[|s| - 1] == Digit(b % 10);
      DigitInjective(a % 10, b % 10);
      assert s[..|s| - 1] == NatToString(a / 10) && s[..|s| - 1] == NatToString(b / 10);
      NatToStringInjective(a / 10, b / 10);
    }
  }

  lemma PrefixCancel(p: string, x: string, y: string)
    requires p + x == p + y
    ensures x == y
  {
    assert x == (p + x)[|p|..];
    assert y == (p + y)[|p|..];
  }

  /** No name occurs twice in the schema. */
  lemma FeatureColsDistinct()
    ensures Distinct(FeatureCols())
  {
    var fc := FeatureCols();
    FeatureColsShape();
    forall i, j | 0 <= i < j < |fc| ensures fc[i] != fc[j] {
      if 3 <= i {
        if fc[i] == fc[j] {
          PrefixCancel("sensor_", NatToString(i - 2), NatToString(j - 2));
          NatToStringInjective(i - 2, j - 2);
        }
      } else if 3 <= j {
        assert fc[i][0] == 'o' && fc[j][0] == 's';
      }
    }
  }

  /** The two columns scoring appends are not schema names. */
  lemma ScoreColumnsNotFeatures()
    ensures "Prediction" !in FeatureCols()
    ensures "Failure_Probability" !in FeatureCols()
  {
    FeatureColsShape();
    forall k | 0 <= k < |FeatureCols()|
      ensures FeatureCols()[k] != "Prediction" && FeatureCols()[k] != "Failure_Probability"
    {
      assert FeatureCols()[k][0] == 'o' || FeatureCols()[k][0] == 's';
    }
  }

  /** The fields of the manual-entry form: the operational settings and
      `sensor_1` .. `sensor_5`. */
  function ManualFields(): seq<string> {
    ["operational_setting_1", "operational_setting_2", "operational_setting_3",
     "sensor_1", "sensor_2", "sensor_3", "sensor_4", "sensor_5"]
  }

  /** The manual-entry form asks for exactly the first eight schema names. */
  lemma ManualFieldsArePrefix()
    ensures ManualFields() == FeatureCols()[..8]
  {
    FeatureColsShape();
    var fc := FeatureCols();
    forall k | 3 <= k < 8 ensures fc[k] == ManualFields()[k] {
      assert fc[k] == "sensor_" + NatToString(k - 2);
    }
  }
}
