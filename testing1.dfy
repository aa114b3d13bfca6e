/** testing1.py: the command-line predictor, one disease per symptom list, with a warning
    printed for every symptom the schema does not know. */
module Testing1 {
  import opened Seqs
  import opened Encoding
  import UtilsData

  /** The schema of testing1.py: the raw training columns minus "prognosis" and nothing else. */
  function Schema(train: UtilsData.Table): (r: seq<string>)
    requires UtilsData.WellFormed(train) && UtilsData.Prognosis in train.columns
    ensures forall c :: c in r <==> c in train.columns && c != UtilsData.Prognosis
  {
    UtilsData.GetSymptomList(train).value
  }

  /** Unlike the schema the service builds from the cleaned table, this one keeps a stray
      "Unnamed: 133" column as an input position. */
  lemma StrayColumnKeptInTestingSchema(train: UtilsData.Table, test: UtilsData.Table)
    requires UtilsData.WellFormed(train) && UtilsData.WellFormed(test)
    requires UtilsData.Prognosis in train.columns && UtilsData.Prognosis in test.columns
    requires UtilsData.StrayColumn in train.columns
    ensures UtilsData.StrayColumn in Schema(train)
    ensures UtilsData.StrayColumn !in ServiceSchema(train, test)
  {
    UtilsData.LoadAndCleanFails(train, test);
    UtilsData.CleanTrainWellFormed(train);
    UtilsData.LoadAndCleanShape(train, test);
    SymptomListOmits(UtilsData.CleanTrain(train), UtilsData.StrayColumn);
  }

  /** The schema app.py takes from the table load_and_clean returns. */
  function ServiceSchema(train: UtilsData.Table, test: UtilsData.Table): seq<string>
    requires UtilsData.WellFormed(train) && UtilsData.WellFormed(test)
    requires UtilsData.Prognosis in train.columns && UtilsData.Prognosis in test.columns
  {
    UtilsData.LoadAndCleanFails(train, test);
    UtilsData.LoadAndCleanShape(train, test);
    UtilsData.GetSymptomList(UtilsData.LoadAndClean(train, test).value.0).value
  }

  lemma SymptomListOmits(t: UtilsData.Table, c: string)
    requires UtilsData.WellFormed(t) && UtilsData.Prognosis in t.columns && c !in t.columns
    ensures c !in UtilsData.GetSymptomList(t).value
  {
    var schema := UtilsData.GetSymptomList(t).value;
    var p := IndexOf(t.columns, UtilsData.Prognosis);
    assert schema == t.columns[..p] + t.columns[p + 1..];
    assert forall i :: 0 <= i < |schema| ==> schema[i] in t.columns;
  }

  /** The input width of the network 1.py trains: the columns of the cleaned training table
      other than "prognosis" (the stray column is dropped before the features are taken). */
  function TrainedWidth(train: UtilsData.Table): nat
    requires UtilsData.WellFormed(train) && UtilsData.Prognosis in train.columns
  {
    UtilsData.CleanTrainWellFormed(train);
    |UtilsData.GetSymptomList(UtilsData.CleanTrain(train)).value|
  }

  /** testing1.py's vector is as wide as the network's input exactly when the training table has
      no stray column; with one it is one position wider. */
  lemma TestingSchemaWidth(train: UtilsData.Table)
    requires UtilsData.WellFormed(train) && UtilsData.Prognosis in train.columns
    ensures UtilsData.StrayColumn in train.columns ==> |Schema(train)| == TrainedWidth(train) + 1
    ensures UtilsData.StrayColumn !in train.columns ==> |Schema(train)| == TrainedWidth(train)
    ensures |Schema(train)| == TrainedWidth(train) <==> UtilsData.StrayColumn !in train.columns
  {
    UtilsData.CleanTrainWellFormed(train);
    var cleaned := UtilsData.CleanTrain(train);
    assert |Schema(train)| == |train.columns| - 1;
    assert |UtilsData.GetSymptomList(cleaned).value| == |cleaned.columns| - 1;
    if UtilsData.StrayColumn in train.columns {
      WithoutSplice(train.columns, UtilsData.StrayColumn);
      assert |cleaned.columns| == |train.columns| - 1;
    }
  }

  /** np.argmax: the position of the first largest score. */
  function ArgMax(s: seq<int>): (r: nat)
    requires |s| > 0
    ensures r < |s|
    ensures forall j :: 0 <= j < |s| ==> s[j] <= s[r]
    ensures forall j :: 0 <= j < r ==> s[j] < s[r]
  {
    if |s| == 1 then 0
    else
      var r := ArgMax(s[..|s| - 1]);
      if s[|s| - 1] > s[r] then |s| - 1 else r
  }

  /** The line printed for a symptom outside the schema. */
  function WarningText(symptom: string): string
  {
    "\U{26A0}\U{FE0F} Warning: Symptom '" + symptom + "' not in dataset!"
  }

  /** The warnings predict_disease prints for a symptom list, in order. */
  function Warnings(schema: seq<string>, symptoms: seq<string>): seq<string>
  {
    if symptoms == [] then []
    else
      var last := symptoms[|symptoms| - 1];
      Warnings(schema, symptoms[..|symptoms| - 1]) + (if last in schema then [] else [WarningText(last)])
  }

  /** The warnings of a concatenation are the warnings of its parts: one per unknown occurrence, in order. */
  lemma {:induction false} WarningsAppend(schema: seq<string>, a: seq<string>, b: seq<string>)
    ensures Warnings(schema, a + b) == Warnings(schema, a) + Warnings(schema, b)
    decreases |b|
  {
    if b != [] {
      var b' := b[..|b| - 1];
      assert (a + b)[..|a + b| - 1] == a + b';
      var last := b[|b| - 1];
      assert (a + b)[|a + b| - 1] == last;
      var w := if last in schema then [] else [WarningText(last)];
      assert Warnings(schema, a + b) == Warnings(schema, a + b') + w;
      assert Warnings(schema, b) == Warnings(schema, b') + w;
      WarningsAppend(schema, a, b');
    } else {
      assert a + b == a;
    }
  }

  /** A single symptom warns exactly when it is unknown. */
  lemma WarningsOne(schema: seq<string>, s: string)
    ensures Warnings(schema, [s]) == if s in schema then [] else [WarningText(s)]
  {
    assert [s][..0] == [];
  }

  /** There is no warning exactly when every symptom is known, and never more warnings than symptoms. */
  lemma {:induction false} WarningsNone(schema: seq<string>, symptoms: seq<string>)
    ensures Warnings(schema, symptoms) == [] <==> forall s :: s in symptoms ==> s in schema
    ensures |Warnings(schema, symptoms)| <= |symptoms|
    decreases |symptoms|
  {
    if symptoms != [] {
      var init := symptoms[..|symptoms| - 1];
      WarningsNone(schema, init);
      assert symptoms == init + [symptoms[|symptoms| - 1]];
    }
  }

  /** The class predict_disease returns. */
  function Diagnose(schema: seq<string>, classes: seq<string>, classify: seq<int> -> seq<int>, symptoms: seq<string>): string
    requires |classes| > 0 && |classify(OneHot(schema, symptoms))| == |classes|
  {
    classes[ArgMax(classify(OneHot(schema, symptoms)))]
  }

  /** The result is the class of a largest score, and of the first one among equals. */
  lemma DiagnoseIsBest(schema: seq<string>, classes: seq<string>, classify: seq<int> -> seq<int>, symptoms: seq<string>)
    requires |classes| > 0 && |classify(OneHot(schema, symptoms))| == |classes|
    ensures var scores := classify(OneHot(schema, symptoms));
      exists i :: 0 <= i < |classes| && Diagnose(schema, classes, classify, symptoms) == classes[i]
        && (forall j :: 0 <= j < |scores| ==> scores[j] <= scores[i])
        && (forall j :: 0 <= j < i ==> scores[j] < scores[i])
  {
    var scores := classify(OneHot(schema, symptoms));
    var i := ArgMax(scores);
    assert Diagnose(schema, classes, classify, symptoms) == classes[i];
  }

  /** Empty or all-unknown input is not refused: the classifier still runs, on the all-zero vector. */
  lemma DiagnoseAllUnknown(schema: seq<string>, classes: seq<string>, classify: seq<int> -> seq<int>, symptoms: seq<string>)
    requires forall s :: s in symptoms ==> s !in schema
    requires |classes| > 0 && |classify(seq(|schema|, _ => 0))| == |classes|
    ensures |classify(OneHot(schema, symptoms))| == |classes|
    ensures Diagnose(schema, classes, classify, symptoms) == classes[ArgMax(classify(seq(|schema|, _ => 0)))]
    ensures |Warnings(schema, symptoms)| == |symptoms|
  {
    OneHotNoneKnown(schema, symptoms);
    AllUnknownWarnings(schema, symptoms);
  }

  lemma {:induction false} AllUnknownWarnings(schema: seq<string>, symptoms: seq<string>)
    requires forall s :: s in symptoms ==> s !in schema
    ensures |Warnings(schema, symptoms)| == |symptoms|
    decreases |symptoms|
  {
    if symptoms != [] {
      var init := symptoms[..|symptoms| - 1];
      assert forall s :: s in init ==> s in symptoms;
      AllUnknownWarnings(schema, init);
    }
  }

  /** What predict_disease ends in: a disease, or the ValueError model.predict raises when the
      vector's width is not the network's input width. */
  datatype Outcome = Diagnosed(disease: string) | InputWidthError(expected: nat, found: nat)

  /** model.predict on a vector of the schema's width, for a network trained on width inputs. */
  function Run(width: nat, schema: seq<string>, classes: seq<string>, classify: seq<int> -> seq<int>, symptoms: seq<string>): (r: Outcome)
    requires |classes| > 0 && (|schema| == width ==> |classify(OneHot(schema, symptoms))| == |classes|)
    ensures r.Diagnosed? <==> |schema| == width
    ensures r.Diagnosed? ==>
      var scores := classify(OneHot(schema, symptoms));
      exists i :: 0 <= i < |classes| && r.disease == classes[i]
        && (forall j :: 0 <= j < |scores| ==> scores[j] <= scores[i])
        && (forall j :: 0 <= j < i ==> scores[j] < scores[i])
    ensures r.InputWidthError? ==> r.expected == width && r.found == |schema|
  {
    if |schema| == width then
      DiagnoseIsBest(schema, classes, classify, symptoms);
      Diagnosed(Diagnose(schema, classes, classify, symptoms))
    else InputWidthError(width, |schema|)
  }

  /** With a stray "Unnamed: 133" in the training table, every call of testing1.py's predict_disease
      on the network trained from that table fails, whatever the symptoms; without it, every call
      yields a disease. */
  lemma StrayColumnBreaksTesting(train: UtilsData.Table, classes: seq<string>, classify: seq<int> -> seq<int>, symptoms: seq<string>)
    requires UtilsData.WellFormed(train) && UtilsData.Prognosis in train.columns
    requires |classes| > 0
    requires |Schema(train)| == TrainedWidth(train) ==> |classify(OneHot(Schema(train), symptoms))| == |classes|
    ensures UtilsData.StrayColumn in train.columns ==>
      Run(TrainedWidth(train), Schema(train), classes, classify, symptoms) == InputWidthError(TrainedWidth(train), TrainedWidth(train) + 1)
    ensures UtilsData.StrayColumn !in train.columns ==>
      Run(TrainedWidth(train), Schema(train), classes, classify, symptoms).Diagnosed?
  {
    TestingSchemaWidth(train);
  }

  /** The corrected schema: the features of the cleaned training table, as 1.py and the service use.
      Its vector always has the network's width, so predict_disease always yields a disease. */
  lemma CleanedSchemaFitsNetwork(train: UtilsData.Table, classes: seq<string>, classify: seq<int> -> seq<int>, symptoms: seq<string>)
    requires UtilsData.WellFormed(train) && UtilsData.Prognosis in train.columns
    requires |classes| > 0
    requires UtilsData.WellFormed(UtilsData.CleanTrain(train)) && UtilsData.Prognosis in UtilsData.CleanTrain(train).columns
    requires |classify(OneHot(UtilsData.GetSymptomList(UtilsData.CleanTrain(train)).value, symptoms))| == |classes|
    ensures var schema := UtilsData.GetSymptomList(UtilsData.CleanTrain(train)).value;
      UtilsData.StrayColumn !in schema
      && Run(TrainedWidth(train), schema, classes, classify, symptoms) == Diagnosed(Diagnose(schema, classes, classify, symptoms))
  {
    UtilsData.CleanTrainWellFormed(train);
    SymptomListOmits(UtilsData.CleanTrain(train), UtilsData.StrayColumn);
  }

  /** predict_disease: build the vector one symptom at a time, warning about each unknown one,
      then decode the argmax of the classifier's scores; the warnings are printed before
      model.predict can refuse a vector of the wrong width. */
  method PredictDisease(width: nat, schema: seq<string>, classes: seq<string>, classify: seq<int> -> seq<int>, userSymptoms: seq<string>)
    returns (outcome: Outcome, warnings: seq<string>)
    requires Distinct(schema)
    requires |classes| > 0 && (|schema| == width ==> |classify(OneHot(schema, userSymptoms))| == |classes|)
    ensures outcome == Run(width, schema, classes, classify, userSymptoms)
    ensures warnings == Warnings(schema, userSymptoms)
  {
    var inputData := new int[|schema|](_ => 0);
    warnings := [];
    for i := 0 to |userSymptoms|
      invariant forall p :: 0 <= p < inputData.Length ==> inputData[p] == if schema[p] in userSymptoms[..i] then 1 else 0
      invariant warnings == Warnings(schema, userSymptoms[..i])
    {
      var symptom := userSymptoms[i];
      assert userSymptoms[..i + 1] == userSymptoms[..i] + [symptom];
      assert userSymptoms[..i + 1][..i] == userSymptoms[..i];
      if symptom in schema {
        inputData[IndexOf(schema, symptom)] := 1;
      } else {
        warnings := warnings + [WarningText(symptom)];
      }
    }
    assert userSymptoms[..|userSymptoms|] == userSymptoms;
    assert inputData[..] == OneHot(schema, userSymptoms);
    if inputData.Length != width {
      return InputWidthError(width, inputData.Length), warnings;
    }
    var prediction := classify(inputData[..]);
    outcome := Diagnosed(classes[ArgMax(prediction)]);
  }
}
