/** The fixed-width input vector the classifier reads: one position per schema column. */
module Encoding {

  /** Position i is 1 exactly when schema[i] is among the given symptoms, otherwise 0. */
  function OneHot(schema: seq<string>, symptoms: seq<string>): (v: seq<int>)
    ensures |v| == |schema|
  {
    seq(|schema|, i requires 0 <= i < |schema| => if schema[i] in symptoms then 1 else 0)
  }

  /** Only which schema columns are named matters: order, repetitions and unknown names do not. */
  lemma OneHotDependsOnKnownNames(schema: seq<string>, a: seq<string>, b: seq<string>)
    requires forall x :: x in schema ==> (x in a <==> x in b)
    ensures OneHot(schema, a) == OneHot(schema, b)
  {
  }

  /** A symptom outside the schema leaves the vector unchanged. */
  lemma OneHotUnknown(schema: seq<string>, symptoms: seq<string>, unknown: string)
    requires unknown !in schema
    ensures OneHot(schema, symptoms + [unknown]) == OneHot(schema, symptoms)
  {
    OneHotDependsOnKnownNames(schema, symptoms + [unknown], symptoms);
  }

  /** With no known symptom the vector is all zeros. */
  lemma OneHotNoneKnown(schema: seq<string>, symptoms: seq<string>)
    requires forall s :: s in symptoms ==> s !in schema
    ensures OneHot(schema, symptoms) == seq(|schema|, _ => 0)
  {
  }
}
