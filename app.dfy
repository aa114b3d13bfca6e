/** app.py and api/app.py (the same live code): turning free-text symptom entries into
    ranked disease predictions with a suggested doctor, and shaping the /chat reply. */
module App {
  import opened Wrappers
  import opened Seqs
  import opened Strings
  import opened Encoding
  import UtilsData

  // ----- the loaded artifacts -----

  /** numpy's argsort: a permutation of the indices that orders the scores ascending; ties in any order. */
  predicate IsArgsort(scores: seq<int>, order: seq<nat>)
  {
    && |order| == |scores|
    && (forall i :: 0 <= i < |order| ==> order[i] < |scores|)
    && Distinct(order)
    && (forall j: nat :: j < |scores| ==> j in order)
    && (forall i, j :: 0 <= i < j < |order| ==> scores[order[i]] <= scores[order[j]])
  }

  /** What the service loads once at start-up. The classifier and numpy's argsort are opaque:
      classify is model.predict on one input vector, one score per class; the label encoder
      decodes class i as classes[i]. */
  datatype Context = Context(
    schema: seq<string>,
    classes: seq<string>,
    doctors: map<string, string>,
    classify: seq<int> -> seq<int>,
    argsort: seq<int> -> seq<nat>)

  ghost predicate ValidContext(ctx: Context)
  {
    && Distinct(ctx.schema)
    && (forall v :: |ctx.classify(v)| == |ctx.classes|)
    && (forall s :: IsArgsort(s, ctx.argsort(s)))
  }

  // ----- predict_disease_from_symptoms -----

  datatype Prediction = Prediction(disease: string, confidence: int, doctor: string)

  const DefaultDoctor := "General Physician"

  /** doctor_mapping.get(disease, "General Physician") */
  function DoctorFor(doctors: map<string, string>, disease: string): string
  {
    if disease in doctors then doctors[disease] else DefaultDoctor
  }

  /** The k best-scoring classes, best first: every chosen score is at least every unchosen one. */
  predicate IsTopK(scores: seq<int>, top: seq<nat>, k: nat)
  {
    && |top| == (if |scores| < k then |scores| else k)
    && (forall a :: 0 <= a < |top| ==> top[a] < |scores|)
    && Distinct(top)
    && (forall a, b :: 0 <= a < b < |top| ==> scores[top[a]] >= scores[top[b]])
    && (forall j: nat, a :: j < |scores| && j !in top && 0 <= a < |top| ==> scores[j] <= scores[top[a]])
  }

  /** order[-3:][::-1] */
  function TopThree(order: seq<nat>): seq<nat>
  {
    var m := if |order| < 3 then |order| else 3;
    seq(m, a requires 0 <= a < m => order[|order| - 1 - a])
  }

  /** The last three of an ascending argsort, reversed, are the three best classes, best first. */
  lemma TopThreeOfArgsort(scores: seq<int>, order: seq<nat>)
    requires IsArgsort(scores, order)
    ensures IsTopK(scores, TopThree(order), 3)
  {
    var n := |order|;
    var top := TopThree(order);
    var m := |top|;
    assert forall a :: 0 <= a < m ==> top[a] == order[n - 1 - a];
    forall a, b | 0 <= a < b < m ensures top[a] != top[b] && scores[top[a]] >= scores[top[b]] {
      assert top[a] == order[n - 1 - a] && top[b] == order[n - 1 - b];
    }
    forall j: nat, a | j < |scores| && j !in top && 0 <= a < m
      ensures scores[j] <= scores[top[a]]
    {
      UnchosenBelow(scores, order, j);
      var p := IndexOf(order, j);
      assert top[a] == order[n - 1 - a];
    }
  }

  /** A class not among the last three of the argsort sits before them. */
  lemma UnchosenBelow(scores: seq<int>, order: seq<nat>, j: nat)
    requires IsArgsort(scores, order) && j < |scores| && j !in TopThree(order)
    ensures |order| >= 3 && IndexOf(order, j) < |order| - 3
  {
    assert j in order;
    LateInTop(order, IndexOf(order, j));
  }

  lemma LateInTop(order: seq<nat>, p: nat)
    requires p < |order|
    ensures p >= |order| - |TopThree(order)| ==> order[p] in TopThree(order)
  {
    var top := TopThree(order);
    if p >= |order| - |top| {
      assert top[|order| - 1 - p] == order[p];
    }
  }

  /** The classifier's scores for one list of symptoms. */
  function Scores(ctx: Context, symptoms: seq<string>): seq<int>
  {
    ctx.classify(OneHot(ctx.schema, symptoms))
  }

  /** The class indices predict_disease_from_symptoms reports, best first. */
  function TopClasses(ctx: Context, symptoms: seq<string>): seq<nat>
  {
    TopThree(ctx.argsort(Scores(ctx, symptoms)))
  }

  /** The list predict_disease_from_symptoms returns. */
  function Predict(ctx: Context, symptoms: seq<string>): seq<Prediction>
    requires ValidContext(ctx)
  {
    var scores := Scores(ctx, symptoms);
    var top := TopClasses(ctx, symptoms);
    seq(|top|, a requires 0 <= a < |top| =>
      var d := ctx.classes[top[a]];
      Prediction(d, scores[top[a]], DoctorFor(ctx.doctors, d)))
  }

  /** min(3, number of classes) results, in non-increasing score order, each at least every
      unreported class's score, each with the mapped doctor or "General Physician". */
  lemma PredictRanked(ctx: Context, symptoms: seq<string>)
    requires ValidContext(ctx)
    ensures var r := Predict(ctx, symptoms);
      var scores := Scores(ctx, symptoms);
      var top := TopClasses(ctx, symptoms);
      && IsTopK(scores, top, 3)
      && |r| == (if |ctx.classes| < 3 then |ctx.classes| else 3)
      && (forall a :: 0 <= a < |r| ==> r[a].disease == ctx.classes[top[a]] && r[a].confidence == scores[top[a]])
      && (forall a, b :: 0 <= a < b < |r| ==> r[a].confidence >= r[b].confidence)
      && (forall j: nat, a :: j < |ctx.classes| && j !in top && 0 <= a < |r| ==> scores[j] <= r[a].confidence)
      && (forall a :: 0 <= a < |r| ==>
            r[a].doctor == if r[a].disease in ctx.doctors then ctx.doctors[r[a].disease] else "General Physician")
  {
    var scores := Scores(ctx, symptoms);
    TopThreeOfArgsort(scores, ctx.argsort(scores));
  }

  /** With the generated mapping loaded for every class, each doctor is the heuristic's suggestion for the disease. */
  lemma PredictWithGeneratedMapping(ctx: Context, symptoms: seq<string>)
    requires ValidContext(ctx)
    requires forall c :: c in ctx.classes ==> c in ctx.doctors && ctx.doctors[c] == UtilsData.Specialist(c)
    ensures forall p :: p in Predict(ctx, symptoms) ==> p.doctor == UtilsData.Specialist(p.disease)
  {
  }

  /** The input vector of predict_disease_from_symptoms: zeros, then a 1 at symptom_columns.index(s)
      for every known symptom s. */
  method EncodeSymptoms(schema: seq<string>, symptoms: seq<string>) returns (v: seq<int>)
    requires Distinct(schema)
    ensures v == OneHot(schema, symptoms)
  {
    var input := new int[|schema|](_ => 0);
    for i := 0 to |symptoms|
      invariant forall p :: 0 <= p < input.Length ==> input[p] == if schema[p] in symptoms[..i] then 1 else 0
    {
      var s := symptoms[i];
      assert symptoms[..i + 1] == symptoms[..i] + [s];
      if s in schema {
        var k := IndexOf(schema, s);
        input[k] := 1;
      }
    }
    assert symptoms[..|symptoms|] == symptoms;
    v := input[..];
  }

  /** predict_disease_from_symptoms */
  method PredictDiseaseFromSymptoms(ctx: Context, symptoms: seq<string>) returns (results: seq<Prediction>)
    requires ValidContext(ctx)
    ensures results == Predict(ctx, symptoms)
    ensures |results| == if |ctx.classes| < 3 then |ctx.classes| else 3
    ensures forall a, b :: 0 <= a < b < |results| ==> results[a].confidence >= results[b].confidence
  {
    var input := EncodeSymptoms(ctx.schema, symptoms);
    var prediction := ctx.classify(input);
    var topIdxs := TopThree(ctx.argsort(prediction));
    results := [];
    for a := 0 to |topIdxs|
      invariant results == Predict(ctx, symptoms)[..a]
    {
      var d := ctx.classes[topIdxs[a]];
      results := results + [Prediction(d, prediction[topIdxs[a]], DoctorFor(ctx.doctors, d))];
    }
    PredictRanked(ctx, symptoms);
  }

  // ----- chat -----

  /** One comma-separated piece after s.strip().replace(" ", "_"). */
  function Normalize(piece: string): string
  {
    Replace(Strip(piece), ' ', '_')
  }

  /** What a token looks like: non-empty, no commas, no spaces, no whitespace at either end. */
  predicate IsToken(t: string)
  {
    t != [] && ' ' !in t && ',' !in t && !IsSpace(t[0]) && !IsSpace(t[|t| - 1])
  }

  /** Normalizing a comma-free piece that is not blank gives a token. */
  lemma NormalizeToken(piece: string)
    requires ',' !in piece && !Blank(piece)
    ensures IsToken(Normalize(piece))
  {
    StripSpec(piece);
    var s := Strip(piece);
    var t := Replace(s, ' ', '_');
    forall i | 0 <= i < |t| ensures t[i] != ' ' && t[i] != ',' {
      if s[i] != ' ' {
        assert s[i] in piece;
      }
    }
    assert t[0] == s[0] && t[|t| - 1] == s[|s| - 1];
  }

  /** [p.strip().replace(" ", "_") for p in pieces if p.strip()] */
  function Tokens(pieces: seq<string>): (tokens: seq<string>)
    requires forall k :: 0 <= k < |pieces| ==> ',' !in pieces[k]
    ensures |tokens| <= |pieces|
    ensures forall k :: 0 <= k < |tokens| ==> IsToken(tokens[k])
  {
    if pieces == [] then []
    else
      assert forall k :: 0 <= k < |pieces| - 1 ==> pieces[1..][k] == pieces[k + 1];
      var rest := Tokens(pieces[1..]);
      if Strip(pieces[0]) == [] then rest
      else
        StripSpec(pieces[0]);
        NormalizeToken(pieces[0]);
        TokensCons(Normalize(pieces[0]), rest);
        [Normalize(pieces[0])] + rest
  }

  lemma TokensCons(t: string, rest: seq<string>)
    requires IsToken(t) && forall k :: 0 <= k < |rest| ==> IsToken(rest[k])
    ensures forall k :: 0 <= k < |rest| + 1 ==> IsToken(([t] + rest)[k])
  {
    assert forall k :: 0 <= k < |rest| ==> ([t] + rest)[k + 1] == rest[k];
  }

  /** The tokens of one entry, in order: its comma-separated pieces, stripped, spaces turned
      into underscores, blank pieces dropped. */
  function Tokenize(entry: string): (tokens: seq<string>)
    ensures forall k :: 0 <= k < |tokens| ==> IsToken(tokens[k])
  {
    Tokens(Split(entry, ','))
  }

  predicate AllBlank(pieces: seq<string>)
  {
    forall k :: 0 <= k < |pieces| ==> Blank(pieces[k])
  }

  /** Every character is the separator or whitespace. */
  predicate SepOrSpace(s: string, sep: char)
  {
    forall i :: 0 <= i < |s| ==> s[i] == sep || IsSpace(s[i])
  }

  lemma {:induction false} TokensEmpty(pieces: seq<string>)
    requires forall k :: 0 <= k < |pieces| ==> ',' !in pieces[k]
    ensures Tokens(pieces) == [] <==> AllBlank(pieces)
    decreases |pieces|
  {
    if pieces != [] {
      TokensEmpty(pieces[1..]);
      StripSpec(pieces[0]);
      AllBlankCons(pieces[0], pieces[1..]);
      assert pieces == [pieces[0]] + pieces[1..];
    }
  }

  lemma AllBlankCons(p: string, ps: seq<string>)
    ensures AllBlank([p] + ps) <==> Blank(p) && AllBlank(ps)
  {
    var all := [p] + ps;
    assert all[0] == p;
    assert forall k :: 0 <= k < |ps| ==> all[k + 1] == ps[k];
    if Blank(p) && AllBlank(ps) {
      forall k | 0 <= k < |all| ensures Blank(all[k]) {
        if k > 0 { assert all[k] == ps[k - 1]; }
      }
    }
  }

  lemma BlankCons(c: char, s: string)
    ensures Blank([c] + s) <==> IsSpace(c) && Blank(s)
  {
    var all := [c] + s;
    assert all[0] == c;
    assert forall i :: 0 <= i < |s| ==> all[i + 1] == s[i];
    if IsSpace(c) && Blank(s) {
      forall i | 0 <= i < |all| ensures IsSpace(all[i]) {
        if i > 0 { assert all[i] == s[i - 1]; }
      }
    }
  }

  lemma SepOrSpaceCons(s: string, sep: char)
    requires s != []
    ensures SepOrSpace(s, sep) <==> (s[0] == sep || IsSpace(s[0])) && SepOrSpace(s[1..], sep)
  {
    assert forall i :: 1 <= i < |s| ==> s[i] == s[1..][i - 1];
  }

  /** Split's pieces are all blank exactly when every character is the separator or whitespace. */
  lemma {:induction false} SplitAllBlank(s: string, sep: char)
    ensures AllBlank(Split(s, sep)) <==> SepOrSpace(s, sep)
    decreases |s|
  {
    if s == [] {
      assert Split(s, sep) == [[]];
    } else {
      SplitAllBlank(s[1..], sep);
      SepOrSpaceCons(s, sep);
      var rest := Split(s[1..], sep);
      if s[0] == sep {
        AllBlankCons([], rest);
      } else {
        BlankCons(s[0], rest[0]);
        AllBlankCons([s[0]] + rest[0], rest[1..]);
        AllBlankCons(rest[0], rest[1..]);
        assert rest == [rest[0]] + rest[1..];
      }
    }
  }

  /** An entry has no tokens exactly when it is made only of commas and whitespace ("" and " , ," included). */
  lemma TokenizeEmpty(entry: string)
    ensures Tokenize(entry) == [] <==> forall i :: 0 <= i < |entry| ==> entry[i] == ',' || IsSpace(entry[i])
  {
    TokensEmpty(Split(entry, ','));
    SplitAllBlank(entry, ',');
  }

  /** [s for s in tokens if s in symptom_columns], in order. */
  function KnownSymptoms(schema: seq<string>, tokens: seq<string>): (valid: seq<string>)
    ensures forall i :: 0 <= i < |valid| ==> valid[i] in tokens && valid[i] in schema
    ensures forall i :: 0 <= i < |tokens| && tokens[i] in schema ==> tokens[i] in valid
  {
    if tokens == [] then []
    else (if tokens[0] in schema then [tokens[0]] else []) + KnownSymptoms(schema, tokens[1..])
  }

  datatype Response =
    | Predicted(input: string, results: seq<Prediction>)
    | Failed(input: string, error: string)

  const NoSymptoms := "No symptoms provided"
  const NoValidSymptoms := "No valid symptoms recognized"
  const InvalidInput := "Invalid input format"

  /** The response for one entry of the request. */
  function EntryResponse(ctx: Context, entry: string): Response
    requires ValidContext(ctx)
  {
    var userSymptoms := Tokenize(entry);
    if userSymptoms == [] then Failed(entry, NoSymptoms)
    else
      var valid := KnownSymptoms(ctx.schema, userSymptoms);
      if valid == [] then Failed(entry, NoValidSymptoms)
      else Predicted(entry, Predict(ctx, valid))
  }

  /** Each entry keeps its own text; it fails with "No symptoms provided" exactly when it has no
      tokens, with "No valid symptoms recognized" exactly when it has tokens but none in the schema,
      and otherwise the predictor is run on the non-empty list of its tokens that are in the schema. */
  lemma EntryResponseCases(ctx: Context, entry: string)
    requires ValidContext(ctx)
    ensures var r := EntryResponse(ctx, entry);
      var tokens := Tokenize(entry);
      && r.input == entry
      && (r == Failed(entry, NoSymptoms) <==> tokens == [])
      && (r == Failed(entry, NoValidSymptoms) <==> tokens != [] && forall t :: t in tokens ==> t !in ctx.schema)
      && (r.Predicted? <==> exists t :: t in tokens && t in ctx.schema)
      && (r.Predicted? ==>
            var valid := KnownSymptoms(ctx.schema, tokens);
            && valid != []
            && (forall s :: s in valid ==> s in ctx.schema)
            && r.results == Predict(ctx, valid))
  {
    var tokens := Tokenize(entry);
    var valid := KnownSymptoms(ctx.schema, tokens);
    if exists t :: t in tokens && t in ctx.schema {
      var t :| t in tokens && t in ctx.schema;
      var i :| 0 <= i < |tokens| && tokens[i] == t;
      assert t in valid;
    }
    if valid != [] {
      assert valid[0] in tokens && valid[0] in ctx.schema;
    }
  }

  /** The JSON value of "message", as far as chat distinguishes it. */
  datatype Json = JString(s: string) | JArray(items: seq<Json>) | JOther

  /** What chat answers. */
  datatype Reply =
    | Single(response: Response)
    | Wrapped(responses: seq<Response>)
    | BadRequest(status: int, error: string)

  /** data.get("message", "") */
  function Message(body: map<string, Json>): Json
  {
    if "message" in body then body["message"] else JString("")
  }

  /** A message list holds strings only (elsewise entry.split fails). */
  predicate EntriesAreStrings(body: map<string, Json>)
  {
    Message(body).JArray? ==> forall j :: j in Message(body).items ==> j.JString?
  }

  /** raw_inputs: a string becomes a one-entry list, a list is taken as it is, anything else is refused. */
  function RawInputs(body: map<string, Json>): Option<seq<string>>
    requires EntriesAreStrings(body)
  {
    match Message(body)
    case JString(s) => Some([s])
    case JArray(items) => Some(seq(|items|, i requires 0 <= i < |items| => items[i].s))
    case JOther => None
  }

  /** One response is returned bare; zero or several are wrapped in {"responses": [...]}. */
  function Collapse(responses: seq<Response>): Reply
  {
    if |responses| == 1 then Single(responses[0]) else Wrapped(responses)
  }

  /** The responses a reply carries. */
  function Unwrap(reply: Reply): seq<Response>
  {
    match reply
    case Single(r) => [r]
    case Wrapped(rs) => rs
    case BadRequest(_, _) => []
  }

  /** Collapsing loses nothing, and only a single response is sent bare. */
  lemma CollapseUnwrap(responses: seq<Response>)
    ensures Unwrap(Collapse(responses)) == responses
    ensures Collapse(responses).Single? <==> |responses| == 1
    ensures !Collapse(responses).BadRequest?
  {
  }

  /** The responses of the entries, in order. */
  function EntryResponses(ctx: Context, entries: seq<string>): seq<Response>
    requires ValidContext(ctx)
  {
    seq(|entries|, i requires 0 <= i < |entries| => EntryResponse(ctx, entries[i]))
  }

  /** The reply of chat for one request body. */
  function ChatReply(ctx: Context, body: map<string, Json>): Reply
    requires ValidContext(ctx) && EntriesAreStrings(body)
  {
    match RawInputs(body)
    case None => BadRequest(400, InvalidInput)
    case Some(entries) => Collapse(EntryResponses(ctx, entries))
  }

  /** The body of chat's loop for one entry: tokenize, keep the known symptoms, predict. */
  method AnswerEntry(ctx: Context, entry: string) returns (r: Response)
    requires ValidContext(ctx)
    ensures r == EntryResponse(ctx, entry)
  {
    var userSymptoms := Tokenize(entry);
    if userSymptoms == [] {
      return Failed(entry, NoSymptoms);
    }
    var validSymptoms := KnownSymptoms(ctx.schema, userSymptoms);
    if validSymptoms == [] {
      return Failed(entry, NoValidSymptoms);
    }
    var results := PredictDiseaseFromSymptoms(ctx, validSymptoms);
    r := Predicted(entry, results);
  }

  /** chat: every entry is answered in turn, an error in one entry moving on to the next. */
  method Chat(ctx: Context, body: map<string, Json>) returns (reply: Reply)
    requires ValidContext(ctx) && EntriesAreStrings(body)
    ensures reply == ChatReply(ctx, body)
  {
    var inputs := RawInputs(body);
    if inputs.None? {
      return BadRequest(400, InvalidInput);
    }
    var rawInputs := inputs.value;
    var responses: seq<Response> := [];
    for i := 0 to |rawInputs|
      invariant |responses| == i
      invariant forall k :: 0 <= k < i ==> responses[k] == EntryResponse(ctx, rawInputs[k])
    {
      var response := AnswerEntry(ctx, rawInputs[i]);
      responses := responses + [response];
    }
    assert responses == EntryResponses(ctx, rawInputs);
    reply := Collapse(responses);
  }

  /** A message that is neither a string nor a list is refused with 400 and nothing is processed;
      otherwise there is one response per entry, in order, carrying the entry as its input,
      and the reply is bare exactly when there is one entry. */
  lemma ChatReplyShape(ctx: Context, body: map<string, Json>)
    requires ValidContext(ctx) && EntriesAreStrings(body)
    ensures ChatReply(ctx, body).BadRequest? <==> Message(body).JOther?
    ensures ChatReply(ctx, body).BadRequest? ==> ChatReply(ctx, body) == BadRequest(400, "Invalid input format")
    ensures RawInputs(body).Some? ==>
      var entries := RawInputs(body).value;
      var responses := Unwrap(ChatReply(ctx, body));
      && |responses| == |entries|
      && (forall i :: 0 <= i < |entries| ==> responses[i] == EntryResponse(ctx, entries[i]) && responses[i].input == entries[i])
      && (ChatReply(ctx, body).Single? <==> |entries| == 1)
  {
    if RawInputs(body).Some? {
      var entries := RawInputs(body).value;
      CollapseUnwrap(EntryResponses(ctx, entries));
      forall i | 0 <= i < |entries| ensures EntryResponse(ctx, entries[i]).input == entries[i] {
        EntryResponseCases(ctx, entries[i]);
      }
    }
  }

  /** A plain string and the one-element list holding it get the same reply. */
  lemma ChatStringIsSingletonList(ctx: Context, body: map<string, Json>, s: string)
    requires ValidContext(ctx)
    ensures ChatReply(ctx, body["message" := JString(s)]) == ChatReply(ctx, body["message" := JArray([JString(s)])])
    ensures ChatReply(ctx, body["message" := JString(s)]) == Single(EntryResponse(ctx, s))
  {
    var b1 := body["message" := JString(s)];
    var b2 := body["message" := JArray([JString(s)])];
    assert Message(b1) == JString(s);
    assert Message(b2) == JArray([JString(s)]);
    assert RawInputs(b2).value == [s];
  }

  /** An empty list gets {"responses": []}. */
  lemma ChatEmptyList(ctx: Context, body: map<string, Json>)
    requires ValidContext(ctx)
    ensures ChatReply(ctx, body["message" := JArray([])]) == Wrapped([])
  {
    var b := body["message" := JArray([])];
    assert Message(b) == JArray([]);
    assert RawInputs(b).value == [];
  }

  /** A missing message counts as "", which has no symptoms. */
  lemma ChatMissingMessage(ctx: Context, body: map<string, Json>)
    requires ValidContext(ctx) && "message" !in body
    ensures ChatReply(ctx, body) == Single(Failed("", "No symptoms provided"))
  {
    TokenizeEmpty("");
  }

  /** " , ," has no tokens. */
  lemma CommasAndSpacesOnly()
    ensures Tokenize(" , ,") == []
  {
    TokenizeEmpty(" , ,");
  }
}
