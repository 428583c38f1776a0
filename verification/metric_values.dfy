/**
 * The payload an application pushes over the pm2 bus: a list of metrics, each with its
 * name, help text, prom-client type and aggregator, and a list of labelled values.
 */
module MetricValues {
  import opened Wrappers
  import OrderedDict

  /** A label value is a string or a number; numbers are taken to be integers. */
  datatype LabelValue = Str(s: string) | Num(n: int)

  /** One labelled observation: its labels object and its value. */
  datatype Sample = Sample(labels: OrderedDict.Dict<LabelValue>, value: int)

  /**
   * One pushed metric. `values` is `None` when the field is not an array; `kind` is the
   * prom-client type name the application sent.
   */
  datatype PushedMetric = PushedMetric(
    name: string,
    help: string,
    kind: string,
    aggregator: string,
    values: Option<seq<Sample>>)

  /** The pushed message; `metrics` is `None` when the field is not an array. */
  datatype AppResponse = AppResponse(metrics: Option<seq<PushedMetric>>)

  /** The prom-client type name of a counter. */
  const Counter: string := "counter"

  /** Every label object of the samples is a well-formed object. */
  ghost predicate SamplesWellFormed(values: seq<Sample>)
  {
    forall i :: 0 <= i < |values| ==> OrderedDict.Valid(values[i].labels)
  }

  /** The decimal digits of `n`, most significant first, without leading zeros. */
  function NatText(n: nat): (t: string)
    ensures |t| > 0
    ensures forall c :: c in t ==> '0' <= c <= '9'
  {
    var d := ['0' + (n % 10) as char];
    if n < 10 then d else NatText(n / 10) + d
  }

  /** The number a string of decimal digits denotes, most significant digit first. */
  function DigitsValue(t: string): nat
    requires forall c :: c in t ==> '0' <= c <= '9'
  {
    if |t| == 0 then 0
    else
      var last := t[|t| - 1];
      assert last in t;
      var front := t[..|t| - 1];
      assert forall c :: c in front ==> '0' <= c <= '9' by {
        forall c | c in front
          ensures '0' <= c <= '9'
        {
          var i :| 0 <= i < |front| && front[i] == c;
          assert t[i] in t;
        }
      }
      DigitsValue(front) * 10 + (last as int - '0' as int)
  }

  /** The decimal text of `n` reads back as `n`. */
  lemma {:induction false} NatTextValue(n: nat)
    ensures DigitsValue(NatText(n)) == n
    decreases n
  {
    var t := NatText(n);
    if n >= 10 {
      NatTextValue(n / 10);
      assert t[..|t| - 1] == NatText(n / 10);
    } else {
      assert t[..|t| - 1] == [];
    }
  }

  /** Different numbers print differently. */
  lemma NatTextInjective(a: nat, b: nat)
    ensures NatText(a) == NatText(b) ==> a == b
  {
    NatTextValue(a);
    NatTextValue(b);
  }

  /** `${v}`: a string as is, a number in decimal. */
  function Text(v: LabelValue): string
  {
    match v
    case Str(s) => s
    case Num(n) => if n < 0 then "-" + NatText(-n) else NatText(n)
  }
}
