/** utils_data.py: cleaning and aligning the training and testing tables, the symptom schema,
    and the keyword heuristic that suggests a specialist for each disease. */
module UtilsData {
  import opened Wrappers
  import opened Seqs
  import opened Strings

  /** One cell of a table: a 0/1 symptom flag or a prognosis label. */
  datatype Cell = Num(n: int) | Label(s: string)

  /** A data frame: ordered column labels, one column of cells per label, a row count. */
  datatype Table = Table(columns: seq<string>, cells: map<string, seq<Cell>>, rows: nat)

  /** pandas raises KeyError when a dropped or selected column does not exist. */
  datatype Error = KeyError(column: string)

  const Prognosis := "prognosis"
  const StrayColumn := "Unnamed: 133"

  /** What every data frame read from a CSV satisfies: unique labels, one full column per label. */
  predicate WellFormed(t: Table)
  {
    && Distinct(t.columns)
    && t.cells.Keys == (set c | c in t.columns)
    && (forall c :: c in t.cells ==> |t.cells[c]| == t.rows)
  }

  /** df.drop(columns=[name]). */
  function DropColumn(t: Table, name: string): Result<Table, Error>
  {
    if name in t.columns then Success(Table(Without(t.columns, name), t.cells - {name}, t.rows))
    else Failure(KeyError(name))
  }

  lemma DropColumnWellFormed(t: Table, name: string)
    requires WellFormed(t) && name in t.columns
    ensures WellFormed(DropColumn(t, name).value)
  {
    WithoutDistinct(t.columns, name);
  }

  /** get_symptom_list: every training column except "prognosis", in the table's order;
      KeyError when there is no "prognosis" column. */
  function GetSymptomList(train: Table): (r: Result<seq<string>, Error>)
    requires WellFormed(train)
    ensures r.Failure? <==> Prognosis !in train.columns
    ensures r.Failure? ==> r.error == KeyError(Prognosis)
    ensures r.Success? ==>
      var p := IndexOf(train.columns, Prognosis);
      r.value == train.columns[..p] + train.columns[p + 1..]
  {
    if Prognosis in train.columns then
      WithoutSplice(train.columns, Prognosis);
      Success(DropColumn(train, Prognosis).value.columns)
    else
      Failure(KeyError(Prognosis))
  }

  /** A column of n zeros. */
  function Zeros(n: nat): seq<Cell>
  {
    seq(n, _ => Num(0))
  }

  /** df.reindex(columns=columns, fill_value=0): exactly the given columns, missing ones all zeros. */
  function Reindex(t: Table, columns: seq<string>): Table
  {
    Table(columns, map c | c in columns :: if c in t.cells then t.cells[c] else Zeros(t.rows), t.rows)
  }

  /** df[name] = values: replaces an existing column, otherwise appends a new last column. */
  function SetColumn(t: Table, name: string, values: seq<Cell>): Table
  {
    Table(if name in t.columns then t.columns else t.columns + [name], t.cells[name := values], t.rows)
  }

  /** The training table after the stray export column is dropped. */
  function CleanTrain(train: Table): Table
  {
    if StrayColumn in train.columns then DropColumn(train, StrayColumn).value else train
  }

  lemma CleanTrainWellFormed(train: Table)
    requires WellFormed(train)
    ensures WellFormed(CleanTrain(train))
    ensures Prognosis in CleanTrain(train).columns <==> Prognosis in train.columns
    ensures StrayColumn !in CleanTrain(train).columns
  {
    if StrayColumn in train.columns {
      DropColumnWellFormed(train, StrayColumn);
      var cols := CleanTrain(train).columns;
      assert forall i :: 0 <= i < |cols| ==> cols[i] != StrayColumn;
    }
  }

  /** The testing table reindexed to the training features, with its labels put back as the last column. */
  function AlignTest(test: Table, features: seq<string>): Table
    requires Prognosis in test.cells
  {
    var xTest := DropColumn(test, Prognosis);
    var aligned := Reindex(if xTest.Success? then xTest.value else test, features);
    SetColumn(aligned, Prognosis, test.cells[Prognosis])
  }

  /** load_and_clean, after both CSV files are read. */
  function LoadAndClean(train: Table, test: Table): Result<(Table, Table), Error>
    requires WellFormed(train) && WellFormed(test)
  {
    var cleaned := CleanTrain(train);
    var xTrain :- DropColumn(cleaned, Prognosis);
    var _ :- DropColumn(test, Prognosis);
    Success((cleaned, AlignTest(test, xTrain.columns)))
  }

  /** load_and_clean fails with KeyError exactly when one of the tables has no "prognosis" column. */
  lemma LoadAndCleanFails(train: Table, test: Table)
    requires WellFormed(train) && WellFormed(test)
    ensures LoadAndClean(train, test).Failure? <==> Prognosis !in train.columns || Prognosis !in test.columns
    ensures LoadAndClean(train, test).Failure? ==> LoadAndClean(train, test).error == KeyError(Prognosis)
  {
    assert Prognosis in CleanTrain(train).columns <==> Prognosis in train.columns;
  }

  /** The stray column is dropped from the training table exactly when it is present, and nothing else changes. */
  lemma {:induction false} LoadAndCleanTrain(train: Table, test: Table)
    requires WellFormed(train) && WellFormed(test)
    requires Prognosis in train.columns && Prognosis in test.columns
    ensures LoadAndClean(train, test).Success?
    ensures var cleaned := LoadAndClean(train, test).value.0;
      && WellFormed(cleaned)
      && StrayColumn !in cleaned.columns
      && (StrayColumn !in train.columns ==> cleaned == train)
      && (StrayColumn in train.columns ==>
            var p := IndexOf(train.columns, StrayColumn);
            cleaned.columns == train.columns[..p] + train.columns[p + 1..])
      && cleaned.rows == train.rows
      && (forall c :: c in cleaned.cells ==> c in train.cells && cleaned.cells[c] == train.cells[c])
  {
    LoadAndCleanFails(train, test);
    if StrayColumn in train.columns {
      DropColumnWellFormed(train, StrayColumn);
      WithoutSplice(train.columns, StrayColumn);
    }
  }

  /** Reindexing gives exactly the requested columns; a requested column the table lacks is all zeros. */
  lemma ReindexColumns(t: Table, columns: seq<string>)
    requires WellFormed(t) && Distinct(columns)
    ensures var r := Reindex(t, columns);
      && WellFormed(r) && r.columns == columns && r.rows == t.rows
      && forall c :: c in columns ==> r.cells[c] == if c in t.cells then t.cells[c] else Zeros(t.rows)
  {
  }

  /** Assigning a new column appends it last and leaves the other columns alone. */
  lemma SetNewColumn(t: Table, name: string, values: seq<Cell>)
    requires WellFormed(t) && name !in t.columns && |values| == t.rows
    ensures var r := SetColumn(t, name, values);
      && WellFormed(r) && r.columns == t.columns + [name] && r.rows == t.rows
      && r.cells[name] == values
      && forall c :: c in t.cells ==> r.cells[c] == t.cells[c]
  {
    var r := SetColumn(t, name, values);
    assert (set c | c in r.columns) == (set c | c in t.columns) + {name};
  }

  /** The aligned testing table: exactly the given features in their order, then "prognosis";
      missing features are all zeros, present ones and the labels are carried over row for row. */
  lemma AlignTestColumns(test: Table, features: seq<string>)
    requires WellFormed(test) && Prognosis in test.columns
    requires Distinct(features) && Prognosis !in features
    ensures var aligned := AlignTest(test, features);
      && aligned.columns == features + [Prognosis]
      && aligned.rows == test.rows
      && WellFormed(aligned)
      && (forall c :: c in features ==>
            aligned.cells[c] == if c in test.cells then test.cells[c] else Zeros(test.rows))
      && aligned.cells[Prognosis] == test.cells[Prognosis]
  {
    DropColumnWellFormed(test, Prognosis);
    var xTest := DropColumn(test, Prognosis).value;
    ReindexColumns(xTest, features);
    var reindexed := Reindex(xTest, features);
    SetNewColumn(reindexed, Prognosis, test.cells[Prognosis]);
    forall c | c in features
      ensures reindexed.cells[c] == if c in test.cells then test.cells[c] else Zeros(test.rows)
    {
      assert c != Prognosis;
    }
  }

  /** With prognosis in both tables, load_and_clean succeeds and returns the cleaned training table and the testing table aligned to its features. */
  lemma LoadAndCleanShape(train: Table, test: Table)
    requires WellFormed(train) && WellFormed(test)
    requires Prognosis in train.columns && Prognosis in test.columns
    ensures LoadAndClean(train, test).Success?
    ensures WellFormed(CleanTrain(train))
    ensures Prognosis in CleanTrain(train).columns
    ensures LoadAndClean(train, test).value == (CleanTrain(train), AlignTest(test, GetSymptomList(CleanTrain(train)).value))
  {
    LoadAndCleanFails(train, test);
    CleanTrainWellFormed(train);
  }

  /** load_and_clean's testing table: the training features in training order, then "prognosis";
      test-only columns disappear, missing features are all zeros, and the features present in the
      testing table and its labels are carried over row for row. */
  lemma LoadAndCleanTest(train: Table, test: Table)
    requires WellFormed(train) && WellFormed(test)
    requires Prognosis in train.columns && Prognosis in test.columns
    ensures LoadAndClean(train, test).Success?
    ensures WellFormed(LoadAndClean(train, test).value.0)
    ensures var cleaned := LoadAndClean(train, test).value.0;
      var aligned := LoadAndClean(train, test).value.1;
      var features := GetSymptomList(cleaned).value;
      && aligned.columns == features + [Prognosis]
      && (forall c :: c in test.columns && c !in cleaned.columns ==> c !in aligned.columns)
      && aligned.rows == test.rows
      && WellFormed(aligned)
      && (forall c :: c in features ==>
            aligned.cells[c] == if c in test.cells then test.cells[c] else Zeros(test.rows))
      && aligned.cells[Prognosis] == test.cells[Prognosis]
  {
    LoadAndCleanShape(train, test);
    var cleaned := CleanTrain(train);
    SymptomListFacts(cleaned);
    AlignTestColumns(test, GetSymptomList(cleaned).value);
  }

  /** The symptom list is made of distinct columns of the table, prognosis not among them. */
  lemma SymptomListFacts(t: Table)
    requires WellFormed(t) && Prognosis in t.columns
    ensures var features := GetSymptomList(t).value;
      && Distinct(features) && Prognosis !in features
      && forall c :: c in features ==> c in t.columns
  {
    DropColumnWellFormed(t, Prognosis);
    var features := GetSymptomList(t).value;
    assert features == DropColumn(t, Prognosis).value.columns;
    assert forall i :: 0 <= i < |features| ==> features[i] in t.columns;
  }

  // ----- generate_doctor_mapping -----

  /** The categories the heuristic can suggest; Name gives the string stored in the mapping. */
  datatype Specialty =
    | Dermatologist | Cardiologist | Endocrinologist | Pulmonologist | Orthopedic
    | Neurologist | Ophthalmologist | Gynecologist | Gastroenterologist | Nephrologist
    | GeneralPhysician

  function Name(sp: Specialty): string
  {
    match sp
    case Dermatologist => "Dermatologist"
    case Cardiologist => "Cardiologist"
    case Endocrinologist => "Endocrinologist"
    case Pulmonologist => "Pulmonologist"
    case Orthopedic => "Orthopedic"
    case Neurologist => "Neurologist"
    case Ophthalmologist => "Ophthalmologist"
    case Gynecologist => "Gynecologist"
    case Gastroenterologist => "Gastroenterologist"
    case Nephrologist => "Nephrologist"
    case GeneralPhysician => "General Physician"
  }

  /** One `elif any(k in ld for k in keywords)` branch of the heuristic. */
  datatype Rule = Rule(keywords: seq<string>, specialty: Specialty)

  /** The rules in the order they are tried; a name matching none gets GeneralPhysician. */
  const Rules: seq<Rule> := [
    Rule(["psoriasis", "eczema", "rash", "dermat", "fungal", "skin"], Dermatologist),
    Rule(["heart", "cardio", "hypertension", "chest pain", "heart attack"], Cardiologist),
    Rule(["diabetes", "insulin", "endocrin"], Endocrinologist),
    Rule(["asthma", "pneumonia", "tuberculosis", "bronch", "copd"], Pulmonologist),
    Rule(["arthritis", "joint", "bone", "back pain"], Orthopedic),
    Rule(["migraine", "headache", "seizure", "neu"], Neurologist),
    Rule(["eye", "conjunct", "vision"], Ophthalmologist),
    Rule(["preg", "obstet", "gyn", "uterus"], Gynecologist),
    Rule(["stomach", "ulcer", "hepat", "liver", "gastr", "abdomen"], Gastroenterologist),
    Rule(["urine", "urinary", "kidney"], Nephrologist)
  ]

  /** any(k in ld for k in keywords) */
  predicate AnyContains(ld: string, keywords: seq<string>)
  {
    exists i :: 0 <= i < |keywords| && Contains(ld, keywords[i])
  }

  /** The index of the first rule matching ld, or |rules| when none does. */
  function FirstMatch(ld: string, rules: seq<Rule>): (i: nat)
    ensures i <= |rules|
    ensures i < |rules| ==> AnyContains(ld, rules[i].keywords)
    ensures forall j :: 0 <= j < i ==> !AnyContains(ld, rules[j].keywords)
  {
    if rules == [] then 0
    else if AnyContains(ld, rules[0].keywords) then 0
    else 1 + FirstMatch(ld, rules[1..])
  }

  /** The category the if/elif chain picks for one disease name. */
  function SpecialtyOf(disease: string): Specialty
  {
    var i := FirstMatch(Lower(disease), Rules);
    if i < |Rules| then Rules[i].specialty else GeneralPhysician
  }

  /** The string generate_doctor_mapping stores for one disease name. */
  function Specialist(disease: string): string
  {
    Name(SpecialtyOf(disease))
  }

  /** Every stored value is one of the ten specialists of the rules or "General Physician". */
  lemma SpecialistNames(disease: string)
    ensures Specialist(disease) == "General Physician" ||
      exists i :: 0 <= i < |Rules| && Specialist(disease) == Name(Rules[i].specialty)
  {
    var i := FirstMatch(Lower(disease), Rules);
    if i < |Rules| {
      assert Specialist(disease) == Name(Rules[i].specialty);
    }
  }

  /** The rules name ten different specialties, none of them the fallback. */
  lemma RulesSpecialtiesDistinct()
    ensures forall i, j :: 0 <= i < j < |Rules| ==> Rules[i].specialty != Rules[j].specialty
    ensures forall i :: 0 <= i < |Rules| ==> Rules[i].specialty != GeneralPhysician
  {
  }

  /** The first matching rule wins: rule k decides exactly when it matches and no earlier rule does. */
  lemma SpecialtyFirstMatchWins(disease: string, k: nat)
    requires k < |Rules|
    ensures SpecialtyOf(disease) == Rules[k].specialty <==>
      AnyContains(Lower(disease), Rules[k].keywords)
      && forall j :: 0 <= j < k ==> !AnyContains(Lower(disease), Rules[j].keywords)
  {
    RulesSpecialtiesDistinct();
  }

  /** GeneralPhysician exactly when no rule's keyword occurs in the lowered name. */
  lemma SpecialtyFallback(disease: string)
    ensures SpecialtyOf(disease) == GeneralPhysician <==>
      forall j :: 0 <= j < |Rules| ==> !AnyContains(Lower(disease), Rules[j].keywords)
  {
    RulesSpecialtiesDistinct();
  }

  /** Matching is case-insensitive: only the lowered name matters, and lowering first changes nothing. */
  lemma SpecialtyCaseInsensitive(d: string, e: string)
    ensures Lower(d) == Lower(e) ==> SpecialtyOf(d) == SpecialtyOf(e)
    ensures SpecialtyOf(Lower(d)) == SpecialtyOf(d)
  {
    LowerIdempotent(d);
  }

  /** Letters a-z and spaces only. */
  predicate LowerAscii(k: string)
  {
    forall i :: 0 <= i < |k| ==> 'a' <= k[i] <= 'z' || k[i] == ' '
  }

  lemma LowerOfLowerAscii(k: string)
    requires LowerAscii(k)
    ensures Lower(k) == k
  {
  }

  /** All keywords are lower case, so comparing them with the lowered name is meaningful. */
  lemma KeywordsLowerCase()
    ensures forall r, i :: 0 <= r < |Rules| && 0 <= i < |Rules[r].keywords| ==> Lower(Rules[r].keywords[i]) == Rules[r].keywords[i]
  {
    KeywordsLowerAscii0To2();
    KeywordsLowerAscii2To5();
    KeywordsLowerAscii5To7();
    KeywordsLowerAscii7To10();
    forall r, i | 0 <= r < |Rules| && 0 <= i < |Rules[r].keywords|
      ensures Lower(Rules[r].keywords[i]) == Rules[r].keywords[i]
    {
      LowerOfLowerAscii(Rules[r].keywords[i]);
    }
  }

  // Checking the literal keyword lists character by character is costly, so the
  // rules are checked in four groups: rules 0-1, 2-4, 5-6 and 7-9.

  lemma KeywordsLowerAscii0To2()
    ensures forall r, i :: 0 <= r < 2 && 0 <= i < |Rules[r].keywords| ==> LowerAscii(Rules[r].keywords[i])
  {
  }

  lemma KeywordsLowerAscii2To5()
    ensures forall r, i :: 2 <= r < 5 && 0 <= i < |Rules[r].keywords| ==> LowerAscii(Rules[r].keywords[i])
  {
  }

  lemma KeywordsLowerAscii5To7()
    ensures forall r, i :: 5 <= r < 7 && 0 <= i < |Rules[r].keywords| ==> LowerAscii(Rules[r].keywords[i])
  {
  }

  lemma KeywordsLowerAscii7To10()
    ensures forall r, i :: 7 <= r < |Rules| && 0 <= i < |Rules[r].keywords| ==> LowerAscii(Rules[r].keywords[i])
  {
  }

  /** A name containing "skin" goes to the Dermatologist whatever else it contains. */
  lemma SkinIsDermatology(disease: string)
    requires Contains(Lower(disease), "skin")
    ensures SpecialtyOf(disease) == Dermatologist
  {
    assert Rules[0].keywords[5] == "skin";
    assert AnyContains(Lower(disease), Rules[0].keywords);
  }

  /** A keyword is missed when one of its characters does not occur in the name. */
  lemma MissingChar(ld: string, k: string, c: char)
    requires c in k && c !in ld
    ensures !Contains(ld, k)
  {
    if Contains(ld, k) {
      ContainsChars(ld, k, c);
    }
  }

  /** "Pneumonia" contains the Neurologist keyword "neu", yet the earlier Pulmonologist rule wins. */
  lemma PneumoniaIsPulmonology()
    ensures Contains(Lower("Pneumonia"), "neu")
    ensures SpecialtyOf("Pneumonia") == Pulmonologist
  {
    var ld := Lower("Pneumonia");
    assert ld == "pneumonia";
    PneumoniaMatch(ld);
    SpecialtyFirstMatchWins("Pneumonia", 3);
  }

  lemma PneumoniaMatch(ld: string)
    requires ld == "pneumonia"
    ensures Contains(ld, "neu")
    ensures forall j :: 0 <= j < 3 ==> !AnyContains(ld, Rules[j].keywords)
    ensures AnyContains(ld, Rules[3].keywords)
  {
    assert StartsWith(ld[1..], "neu");
    NoEarlierRule(ld);
    assert Rules[3].keywords[1] == ld;
    ContainsSelf(ld);
  }

  /** The first three rules need one of s, z, r, d, f, h, c. */
  lemma NoEarlierRule(ld: string)
    requires 's' !in ld && 'z' !in ld && 'r' !in ld && 'd' !in ld && 'f' !in ld && 'h' !in ld && 'c' !in ld
    ensures forall j :: 0 <= j < 3 ==> !AnyContains(ld, Rules[j].keywords)
  {
    NotDermatology(ld);
    NotCardiologyOrEndocrinology(ld);
  }

  lemma NotDermatology(ld: string)
    requires 's' !in ld && 'z' !in ld && 'r' !in ld && 'd' !in ld && 'f' !in ld
    ensures !AnyContains(ld, Rules[0].keywords)
  {
    MissingChar(ld, "psoriasis", 's');
    MissingChar(ld, "eczema", 'z');
    MissingChar(ld, "rash", 'r');
    MissingChar(ld, "dermat", 'd');
    MissingChar(ld, "fungal", 'f');
    MissingChar(ld, "skin", 's');
  }

  lemma NotCardiologyOrEndocrinology(ld: string)
    requires 's' !in ld && 'd' !in ld && 'h' !in ld && 'c' !in ld
    ensures !AnyContains(ld, Rules[1].keywords) && !AnyContains(ld, Rules[2].keywords)
  {
    MissingChar(ld, "heart", 'h');
    MissingChar(ld, "cardio", 'c');
    MissingChar(ld, "hypertension", 'h');
    MissingChar(ld, "chest pain", 'c');
    MissingChar(ld, "heart attack", 'h');
    MissingChar(ld, "diabetes", 'd');
    MissingChar(ld, "insulin", 's');
    MissingChar(ld, "endocrin", 'd');
  }

  /** generate_doctor_mapping: one entry per given disease name, keyed by the name as given,
      holding the name of the category the rules pick for it. */
  method GenerateDoctorMapping(diseases: seq<string>) returns (mapping: map<string, string>)
    ensures mapping.Keys == set d | d in diseases
    ensures forall d :: d in mapping ==> mapping[d] == Specialist(d)
  {
    mapping := map[];
    for i := 0 to |diseases|
      invariant mapping.Keys == set d | d in diseases[..i]
      invariant forall d :: d in mapping ==> mapping[d] == Specialist(d)
    {
      var d := diseases[i];
      assert diseases[..i + 1] == diseases[..i] + [d];
      mapping := mapping[d := Specialist(d)];
    }
    assert diseases[..|diseases|] == diseases;
  }
}
