/** The storage-neutral values of models.py. A Python dataclass that refuses a
    bad argument in its constructor is a type here: every value of the type has
    passed that constructor. */
module Models {

  datatype Option<+T> = None | Some(value: T)

  /** The largest integer an SQLite INTEGER column holds. */
  const MAX_INTEGER: int := 0x7FFF_FFFF_FFFF_FFFF

  /** A finite Unix time; the models refuse a negative one. */
  type Timestamp = t: real | t >= 0.0 witness 0.0

  /** An absolute counter reading. */
  type Reading = v: int | 0 <= v <= MAX_INTEGER

  predicate Printable(s: string) {
    forall i | 0 <= i < |s| :: ' ' <= s[i]
  }

  predicate ValidPart(s: string) {
    0 < |s| <= 128 && Printable(s)
  }

  /** A source, a metric name, a label key or a reset identity. */
  type Name = s: string | ValidPart(s) witness "x"

  predicate ValidLabels(labels: map<string, string>) {
    && |labels| <= 16
    && forall key | key in labels :: ValidPart(key) && |labels[key]| <= 256 && Printable(labels[key])
  }

  type Labels = labels: map<string, string> | ValidLabels(labels) witness map[]

  /** What one counter is: its source, its metric name and its labels. */
  datatype Series = Series(source: Name, name: Name, labels: Labels)

  datatype CounterObservation = CounterObservation(at: Timestamp, series: Series, value: Reading, resetId: Name)

  datatype CounterResult = CounterResult(series: Series, value: Reading, delta: nat, resetId: Name, isBaseline: bool,
      isReset: bool)

  datatype GaugeObservation = GaugeObservation(at: Timestamp, source: Name, name: Name, value: real, labels: Labels)

  datatype HealthState = Healthy | Degraded | Unavailable | Disabled

  datatype Scalar = Text(text: string) | Number(number: real) | Flag(flag: bool) | Null

  datatype HealthObservation = HealthObservation(at: Timestamp, component: Name, state: HealthState, message: string,
      details: map<string, Scalar>)
}
