/** The classification decision engine (app/classifier.py): the keyword
    heuristic, the interpretation of the remote model's answer, and the
    orchestrator that picks between them and falls back on failure.

    The remote call itself is not modelled: its outcome is a parameter. */
module Classifier {
  import opened Wrappers
  import opened Text
  import opened Schemas
  import Keywords
  import Prompt

  // =====================================================================
  // Keyword heuristic

  const HeuristicModel: string := "Keywords-Heuristic"
  const HeuristicStrategy: string := "Fallback-Heuristic"

  /** How many of `terms` occur in `text`; each term counts once however
      often it occurs. */
  function CategoryScore(text: string, terms: seq<string>): (n: nat)
    ensures n <= |terms|
    ensures n == 0 <==> forall j :: 0 <= j < |terms| ==> !Contains(text, terms[j])
    ensures n == |terms| <==> forall j :: 0 <= j < |terms| ==> Contains(text, terms[j])
  {
    if |terms| == 0 then 0
    else (if Contains(text, terms[0]) then 1 else 0) + CategoryScore(text, terms[1..])
  }

  /** The positions of `terms` whose term occurs in `text`. */
  ghost function PresentTerms(text: string, terms: seq<string>): set<nat> {
    set j: nat | j < |terms| && Contains(text, terms[j])
  }

  /** Moving every position one place on. */
  ghost function Shift(s: set<nat>): set<nat> {
    set j: nat | j in s :: j + 1
  }

  lemma {:induction false} ShiftKeepsSize(s: set<nat>)
    ensures |Shift(s)| == |s|
    decreases |s|
  {
    if s != {} {
      var x :| x in s;
      ShiftKeepsSize(s - {x});
      forall k: nat
        ensures k in Shift(s) <==> k in Shift(s - {x}) + {x + 1}
      {
        if k in Shift(s) {
          var y: nat :| y in s && y + 1 == k;
          assert y == x || y in s - {x};
        }
      }
      assert Shift(s) == Shift(s - {x}) + {x + 1};
      assert forall y: nat :: y in s - {x} ==> y + 1 != x + 1;
    } else {
      assert Shift(s) == {};
    }
  }

  /** The score is the number of listed terms present in the text: the
      positions whose term occurs, each counted once. */
  lemma {:induction false} ScoreCountsPresentTerms(text: string, terms: seq<string>)
    ensures CategoryScore(text, terms) == |PresentTerms(text, terms)|
    decreases |terms|
  {
    if |terms| == 0 {
      assert PresentTerms(text, terms) == {};
    } else {
      var rest := PresentTerms(text, terms[1..]);
      ScoreCountsPresentTerms(text, terms[1..]);
      ShiftKeepsSize(rest);
      var head: set<nat> := if Contains(text, terms[0]) then {0} else {};
      forall j: nat
        ensures j in PresentTerms(text, terms) <==> j in head + Shift(rest)
      {
        if j > 0 && j < |terms| {
          assert terms[j] == terms[1..][j - 1];
          assert j - 1 in rest <==> Contains(text, terms[j]);
          assert j in Shift(rest) <==> j - 1 in rest;
        }
      }
      assert PresentTerms(text, terms) == head + Shift(rest);
      assert 0 !in Shift(rest);
    }
  }

  /** A text in which every term of `a` is present scores at least as high:
      the score depends on which terms are present, not on how often. */
  lemma {:induction false} ScoreMonotone(a: string, b: string, terms: seq<string>)
    requires forall j :: 0 <= j < |terms| ==> Contains(a, terms[j]) ==> Contains(b, terms[j])
    ensures CategoryScore(a, terms) <= CategoryScore(b, terms)
    decreases |terms|
  {
    if |terms| > 0 {
      ScoreMonotone(a, b, terms[1..]);
    }
  }

  lemma ScoreDependsOnlyOnPresence(a: string, b: string, terms: seq<string>)
    requires forall j :: 0 <= j < |terms| ==> (Contains(a, terms[j]) <==> Contains(b, terms[j]))
    ensures CategoryScore(a, terms) == CategoryScore(b, terms)
  {
    ScoreMonotone(a, b, terms);
    ScoreMonotone(b, a, terms);
  }

  /** The best category seen so far and its number of matched terms. */
  datatype Leader = Leader(category: Category, matches: nat)

  /** The scoring loop: walks the table in order and replaces the leader only
      when a category scores strictly more than it. */
  function Scan(table: seq<Keywords.Entry>, text: string, best: Leader): (r: Leader)
    ensures r.matches >= best.matches
    ensures forall i :: 0 <= i < |table| ==> CategoryScore(text, table[i].terms) <= r.matches
    ensures r.matches == best.matches ==> r.category == best.category
    decreases |table|
  {
    if |table| == 0 then best
    else
      var n := CategoryScore(text, table[0].terms);
      Scan(table[1..], text, if n > best.matches then Leader(table[0].category, n) else best)
  }

  /** Entry `k` is the first of `table` to reach `m` matches, and `m` beats
      every entry before it. */
  ghost predicate FirstToReach(table: seq<Keywords.Entry>, text: string, k: int, m: nat) {
    && 0 <= k < |table|
    && CategoryScore(text, table[k].terms) == m
    && forall j :: 0 <= j < k ==> CategoryScore(text, table[j].terms) < m
  }

  /** When the scan improves on its starting leader, the winner is the
      earliest entry reaching the final score. */
  lemma {:induction false} ScanPicksFirstMaximum(table: seq<Keywords.Entry>, text: string, best: Leader)
    ensures var r := Scan(table, text, best);
      r.matches > best.matches ==>
        exists k :: FirstToReach(table, text, k, r.matches) && table[k].category == r.category
    decreases |table|
  {
    if |table| > 0 {
      var r := Scan(table, text, best);
      var n := CategoryScore(text, table[0].terms);
      var next := if n > best.matches then Leader(table[0].category, n) else best;
      assert r == Scan(table[1..], text, next);
      ScanPicksFirstMaximum(table[1..], text, next);
      if r.matches > best.matches {
        if r.matches == next.matches {
          assert FirstToReach(table, text, 0, r.matches);
        } else {
          var k :| FirstToReach(table[1..], text, k, r.matches) && table[1..][k].category == r.category;
          assert n <= next.matches < r.matches;
          assert FirstToReach(table, text, k + 1, r.matches) by {
            forall j | 0 <= j < k + 1
              ensures CategoryScore(text, table[j].terms) < r.matches
            {
              if j > 0 {
                assert table[j] == table[1..][j - 1];
              }
            }
          }
        }
      }
    }
  }

  /** Score of a category for a text: its number of present terms after
      lowering the text; `Outros` has no terms and scores 0. */
  ghost function Score(text: string, c: Category): nat {
    var i := Keywords.Position(c);
    if i < |Keywords.Table| then CategoryScore(Lower(text), Keywords.Table[i].terms) else 0
  }

  /** No term of any category occurs in the lowered text. */
  ghost predicate NoTermMatches(text: string) {
    forall i, j :: 0 <= i < |Keywords.Table| && 0 <= j < |Keywords.Table[i].terms| ==>
      !Contains(Lower(text), Keywords.Table[i].terms[j])
  }

  /** What the heuristic says about its matches: how many terms it found,
      or that it found none. */
  function CountNote(n: nat): (note: string)
    ensures n > 0 ==> IsPrefix("Identificados " + ShowNat(n) + " termos chave", note)
    ensures n == 0 ==> IsPrefix("Nenhum termo chave relevante", note)
  {
    if n > 0 then CountKey(n) + " utilizando heurísticas."
    else CountKey(n) + " identificado utilizando heurísticas."
  }

  /** The opening words of the note, which carry the count. */
  function CountKey(n: nat): string {
    if n > 0 then "Identificados " + ShowNat(n) + " termos chave" else "Nenhum termo chave relevante"
  }

  /** The reasoning of a heuristic result: the caller's reason followed by
      the note on the number of matched terms. */
  function HeuristicReasoning(reason: string, n: nat): (s: string)
    ensures IsPrefix(reason, s)
    ensures n > 0 ==> Contains(s, "Identificados " + ShowNat(n) + " termos chave")
    ensures n == 0 ==> Contains(s, "Nenhum termo chave relevante")
  {
    var s := reason + " " + CountNote(n);
    assert s[..|reason|] == reason;
    var key := CountKey(n);
    assert CountNote(n)[..|key|] == key;
    assert s[|reason| + 1..|reason| + 1 + |key|] == CountNote(n)[..|key|];
    assert OccursAt(s, key, |reason| + 1);
    ContainsIffOccurs(s, key);
    s
  }

  lemma CountNoteInjective(m: nat, n: nat)
    requires CountNote(m) == CountNote(n)
    ensures m == n
  {
    if m > 0 && n > 0 {
      MiddleDetermined("", CountKey(m), CountKey(n), " utilizando heurísticas.");
      MiddleDetermined("Identificados ", ShowNat(m), ShowNat(n), " termos chave");
      ShowNatInjective(m, n);
    } else if m > 0 {
      CountNoteZeroDiffers(m);
    } else if n > 0 {
      CountNoteZeroDiffers(n);
    }
  }

  lemma CountNoteZeroDiffers(p: nat)
    requires p > 0
    ensures CountNote(p) != CountNote(0)
  {
    assert CountNote(p)[0] == CountKey(p)[0] == 'I';
    assert CountNote(0)[0] == CountKey(0)[0] == 'N';
  }

  /** Different counts give different reasonings: the count can be read back
      from the text. */
  lemma ReasoningDeterminesCount(reason: string, m: nat, n: nat)
    requires HeuristicReasoning(reason, m) == HeuristicReasoning(reason, n)
    ensures m == n
  {
    var s := HeuristicReasoning(reason, m);
    var k := |reason|;
    assert s[k + 1..] == CountNote(m);
    assert s[k + 1..] == CountNote(n);
    CountNoteInjective(m, n);
  }

  /** The keyword heuristic: lower the text, score every category of the
      table in order, keep the first strictly best one, `Outros` when
      nothing matched. */
  function Heuristic(text: string, reason: string): (r: ClassificationResponse)
    ensures r.model == HeuristicModel && r.strategy == HeuristicStrategy
    ensures IsPrefix(reason, r.reasoning)
    ensures r.category == Outros <==> NoTermMatches(text)
  {
    var leader := FinalLeader(text);
    ScanPicksFirstMaximum(Keywords.Table, Lower(text), Leader(Outros, 0));
    Keywords.TableShape();
    assert leader.category == Outros <==> NoTermMatches(text) by {
      if leader.matches > 0 {
        var k :| FirstToReach(Keywords.Table, Lower(text), k, leader.matches)
          && Keywords.Table[k].category == leader.category;
        assert CategoryScore(Lower(text), Keywords.Table[k].terms) > 0;
      } else {
        forall i | 0 <= i < |Keywords.Table|
          ensures CategoryScore(Lower(text), Keywords.Table[i].terms) == 0
        {
        }
      }
    }
    ClassificationResponse(leader.category, HeuristicReasoning(reason, leader.matches),
                           HeuristicModel, HeuristicStrategy)
  }

  /** What the heuristic promises of its category `c`: no category scores
      more; a positive maximum goes to the earliest category of the table
      reaching it; `Outros` is chosen when, and only when, nothing scores. */
  ghost predicate IsHeuristicChoice(text: string, c: Category) {
    && (forall d: Category :: Score(text, d) <= Score(text, c))
    && (Score(text, c) == 0 ==> c == Outros)
    && (Score(text, c) > 0 ==>
          forall d: Category :: d != c && Score(text, d) == Score(text, c) ==>
            Keywords.Position(c) < Keywords.Position(d))
  }

  /** At most one category fits that description. */
  lemma HeuristicChoiceUnique(text: string, c: Category, d: Category)
    requires IsHeuristicChoice(text, c) && IsHeuristicChoice(text, d)
    ensures c == d
  {
  }

  /** The leader the heuristic's scan ends with. */
  function FinalLeader(text: string): Leader {
    Scan(Keywords.Table, Lower(text), Leader(Outros, 0))
  }

  /** No category scores more than the final leader. */
  lemma FinalLeaderIsMaximal(text: string, d: Category)
    ensures Score(text, d) <= FinalLeader(text).matches
  {
    var i := Keywords.Position(d);
    if i < |Keywords.Table| {
      assert Score(text, d) == CategoryScore(Lower(text), Keywords.Table[i].terms);
    }
  }

  /** A leader with matches is the first table entry to reach them. */
  lemma FinalLeaderIsFirst(text: string)
    requires FinalLeader(text).matches > 0
    ensures var c := FinalLeader(text).category;
      && Keywords.Position(c) < |Keywords.Table|
      && FirstToReach(Keywords.Table, Lower(text), Keywords.Position(c), FinalLeader(text).matches)
  {
    var t := Lower(text);
    var table := Keywords.Table;
    var leader := FinalLeader(text);
    ScanPicksFirstMaximum(table, t, Leader(Outros, 0));
    var k :| FirstToReach(table, t, k, leader.matches) && table[k].category == leader.category;
    Keywords.TableShape();
    assert Keywords.Position(table[k].category) == k;
  }

  /** The heuristic picks the category that scores most, the earliest in
      table order among those tied at a positive maximum, and reports that
      maximum in its reasoning. */
  lemma HeuristicChoosesFirstMaximum(text: string, reason: string)
    ensures IsHeuristicChoice(text, Heuristic(text, reason).category)
    ensures Heuristic(text, reason).reasoning
         == HeuristicReasoning(reason, Score(text, Heuristic(text, reason).category))
  {
    var leader := FinalLeader(text);
    var c := leader.category;
    assert Heuristic(text, reason) == ClassificationResponse(c, HeuristicReasoning(reason, leader.matches),
                                                             HeuristicModel, HeuristicStrategy);
    forall d: Category
      ensures Score(text, d) <= leader.matches
    {
      FinalLeaderIsMaximal(text, d);
    }
    if leader.matches > 0 {
      FinalLeaderIsFirst(text);
      var k := Keywords.Position(c);
      assert Score(text, c) == leader.matches;
      forall d: Category | d != c && Score(text, d) == Score(text, c)
        ensures k < Keywords.Position(d)
      {
        var j := Keywords.Position(d);
        assert j < |Keywords.Table|;
        assert Keywords.Table[j].category == d;
      }
    } else {
      assert c == Outros;
    }
  }

  /** Text with no characters matches nothing and is classified `Outros`. */
  lemma EmptyTextIsOutros(reason: string)
    ensures Heuristic("", reason).category == Outros
  {
    Keywords.TermsAreLowerCase();
    forall i, j | 0 <= i < |Keywords.Table| && 0 <= j < |Keywords.Table[i].terms|
      ensures !Contains(Lower(""), Keywords.Table[i].terms[j])
    {
      if Contains(Lower(""), Keywords.Table[i].terms[j]) {
        ContainsFits(Lower(""), Keywords.Table[i].terms[j]);
      }
    }
  }

  /** Because every term is stored lower-case, lowering the text alone makes
      the match case-insensitive: a term written in the text in any
      capitalisation is found. */
  lemma TermMatchesInAnyCase(text: string, u: string, i: nat, j: nat)
    requires i < |Keywords.Table| && j < |Keywords.Table[i].terms|
    requires Lower(u) == Lower(Keywords.Table[i].terms[j])
    requires Contains(text, u)
    ensures Contains(Lower(text), Keywords.Table[i].terms[j])
  {
    Keywords.TermsAreLowerCase();
    LowerOfLowerCase(Keywords.Table[i].terms[j]);
    ContainsLower(text, u);
  }

  /** One occurrence of a shared term scores for both of its categories. */
  lemma SharedTermsScoreTwice(text: string)
    ensures Contains(Lower(text), "recurso") ==>
      Score(text, Processual) >= 1 && Score(text, Administrativo) >= 1
    ensures Contains(Lower(text), "orçamento") ==>
      Score(text, Financeiro) >= 1 && Score(text, Comercial) >= 1
  {
    Keywords.SharedTerms();
  }

  /** The single word "solicitação" scores for Processual ("citação"),
      Comercial ("licitação") and Administrativo ("solicitação"). */
  lemma SolicitacaoScoresThrice(text: string)
    requires Contains(Lower(text), "solicitação")
    ensures Score(text, Processual) >= 1
    ensures Score(text, Comercial) >= 1
    ensures Score(text, Administrativo) >= 1
  {
    Keywords.NestedTerms();
    ContainsTransitive(Lower(text), "solicitação", "citação");
    ContainsTransitive(Lower(text), "solicitação", "licitação");
  }

  // =====================================================================
  // Remote strategy: the prompt and the interpretation of the answer

  /** The category labels in enumeration order. */
  function CategoryLabels(): (labels: seq<string>)
    ensures labels == ["Processual", "Financeiro", "Suporte Técnico", "Comercial", "Administrativo", "Outros"]
  {
    seq(|AllCategories|, i requires 0 <= i < |AllCategories| => Label(AllCategories[i]))
  }

  /** The list of categories offered to the remote model: the six labels in
      enumeration order, separated by ", ". */
  function CategoriesList(): (list: string)
    ensures list
         == Label(Processual) + (", " + (Label(Financeiro) + (", " + (Label(Suporte) + (", "
          + (Label(Comercial) + (", " + (Label(Administrativo) + (", " + Label(Outros))))))))))
  {
    var labels := CategoryLabels();
    assert labels == [Label(Processual), Label(Financeiro), Label(Suporte),
                      Label(Comercial), Label(Administrativo), Label(Outros)];
    JoinSix(Label(Processual), Label(Financeiro), Label(Suporte),
            Label(Comercial), Label(Administrativo), Label(Outros), ", ");
    Join(labels, ", ")
  }

  /** The list names every category once, in enumeration order, and can be
      split back into the labels. */
  lemma CategoriesListRoundTrip()
    ensures Split(CategoriesList(), ", ") == CategoryLabels()
    ensures forall c: Category :: Contains(CategoriesList(), Label(c))
  {
    var labels := CategoryLabels();
    forall i | 0 <= i < |labels|
      ensures ',' !in labels[i]
    {
      assert labels[i] == Label(AllCategories[i]);
    }
    SplitJoin(labels, ", ");
    JoinContains(labels, ", ");
    forall c: Category
      ensures Contains(CategoriesList(), Label(c))
    {
      assert labels[IndexOf(c)] == Label(c);
    }
  }

  /** The system prompt: the template formatted with `categories` set to
      the given list (the caller passes `CategoriesList()`). Formatting
      always succeeds, and the list appears between the preamble and the
      closing request. */
  function SystemPrompt(categories: string): (r: Result<string, Prompt.FormatError>)
    ensures r == Success(Prompt.Preamble + categories + Prompt.Closing)
  {
    SystemPromptFormats(categories);
    Prompt.Format(Prompt.Source(Prompt.SystemPromptTemplate), Prompt.PlaceholderName, categories)
  }

  lemma SystemPromptFormats(categories: string)
    ensures Prompt.Format(Prompt.Source(Prompt.SystemPromptTemplate), Prompt.PlaceholderName, categories)
         == Success(Prompt.Preamble + categories + Prompt.Closing)
  {
    Prompt.TemplateFormatting(Prompt.PlaceholderName, categories);
  }

  /** The prompt the remote model receives names every category by its
      canonical label. */
  lemma SystemPromptNamesEveryCategory()
    ensures SystemPrompt(CategoriesList()).Success?
    ensures forall c: Category :: Contains(SystemPrompt(CategoriesList()).value, Label(c))
  {
    CategoriesListRoundTrip();
    FramedListNamesEveryCategory(Prompt.Preamble, CategoriesList(), Prompt.Closing);
  }

  lemma FramedListNamesEveryCategory(pre: string, list: string, post: string)
    requires forall c: Category :: Contains(list, Label(c))
    ensures forall c: Category :: Contains(pre + list + post, Label(c))
  {
    ContainsInfix(pre, list, post);
    forall c: Category
      ensures Contains(pre + list + post, Label(c))
    {
      ContainsTransitive(pre + list + post, list, Label(c));
    }
  }

  /** A parsed JSON object: each key maps to its string value, or to `None`
      when the value is not a string (a number, `null`, a list, ...). */
  type JsonObject = map<string, Option<string>>

  const RemoteStrategy: string := "LLM (Groq)"
  const DefaultReasoning: string := "Classificação via IA"

  /** Why an answer could not be turned into a response. */
  datatype AnswerError =
    | CategoryNotText   // `.lower()` on a non-string category raises
    | ReasoningNotText  // the response record refuses a non-string reasoning

  /** `content.get(key, default)`. */
  function Get(content: JsonObject, key: string, default: string): (r: Option<string>)
    ensures r.None? <==> key in content && content[key].None?
    ensures key !in content ==> r == Some(default)
    ensures key in content && r.Some? ==> r.value == content[key].value
  {
    if key in content then content[key] else Some(default)
  }

  /** The response built from the remote model's answer: the category is
      looked up by label ignoring case, `Outros` when missing or unknown,
      the reasoning defaults to a fixed text, and the result is tagged with
      the configured model and the remote strategy. */
  function Interpret(content: JsonObject, model: string): (r: Result<ClassificationResponse, AnswerError>)
    ensures r.Success? <==>
      ("category" in content ==> content["category"].Some?) &&
      ("reasoning" in content ==> content["reasoning"].Some?)
    ensures r.Failure? && "category" in content && content["category"].None? ==> r.error == CategoryNotText
    ensures r.Success? ==> r.value.model == model && r.value.strategy == RemoteStrategy
    ensures r.Success? && "category" !in content ==> r.value.category == Outros
    ensures r.Success? && "category" in content ==>
      forall c: Category :: c != Outros ==>
        (r.value.category == c <==> Lower(content["category"].value) == Lower(Label(c)))
    ensures r.Success? ==>
      r.value.reasoning == (if "reasoning" in content then content["reasoning"].value else DefaultReasoning)
  {
    ResolveLabel(Outros, Label(Outros));
    match Get(content, "category", Label(Outros))
    case None => Failure(CategoryNotText)
    case Some(cat) =>
      match Get(content, "reasoning", DefaultReasoning)
      case None => Failure(ReasoningNotText)
      case Some(reasoning) => Success(ClassificationResponse(Resolve(cat), reasoning, model, RemoteStrategy))
  }

  // =====================================================================
  // Orchestrator

  /** How the remote call ended: an answer whose message content parsed as
      a JSON object, an HTTP error status, or any other failure (timeout,
      transport error, unparsable body). */
  datatype RemoteOutcome =
    | Answered(content: JsonObject)
    | HttpStatusError(code: nat)
    | OtherFailure

  /** The configuration the orchestrator reads: an empty key selects the
      heuristic-only mode. */
  datatype Settings = Settings(apiKey: string, model: string)

  const NoKeyReason: string := "API Key do Groq não configurada. Fallback com heurística local ativado."
  const UnavailableReason: string := "Indisponibilidade momentânea da IA."

  /** The fallback reason after an HTTP error: it names the status code in
      parentheses. */
  function HttpErrorReason(code: nat): (reason: string)
    ensures IsPrefix("Erro HTTP na IA ", reason)
    ensures Contains(reason, "(" + ShowNat(code) + ")")
  {
    var key := "(" + ShowNat(code) + ")";
    ContainsInfix("Erro HTTP na IA ", key, ".");
    "Erro HTTP na IA " + key + "."
  }

  /** The orchestrator: without a key, the heuristic; with one, the remote
      answer, or the heuristic with a reason naming the failure. `outcome`
      is what the remote call returns when it is made. */
  function Classify(text: string, settings: Settings, outcome: RemoteOutcome): (r: ClassificationResponse)
    ensures r.strategy == RemoteStrategy <==>
      settings.apiKey != "" && outcome.Answered? && Interpret(outcome.content, settings.model).Success?
    ensures r.strategy == RemoteStrategy ==> r == Interpret(outcome.content, settings.model).value
    ensures r.strategy == RemoteStrategy ==> r.model == settings.model
    ensures settings.apiKey == "" ==> r == Heuristic(text, NoKeyReason)
    ensures settings.apiKey != "" && outcome.HttpStatusError? ==> r == Heuristic(text, HttpErrorReason(outcome.code))
    ensures settings.apiKey != "" && !outcome.HttpStatusError? && r.strategy != RemoteStrategy ==>
      r == Heuristic(text, UnavailableReason)
    ensures r.strategy != RemoteStrategy ==>
      r.strategy == HeuristicStrategy && r.model == HeuristicModel
      && r.category == Heuristic(text, "").category
    ensures settings.apiKey == "" ==> IsPrefix(NoKeyReason, r.reasoning)
    ensures settings.apiKey != "" && outcome.HttpStatusError? ==>
      IsPrefix(HttpErrorReason(outcome.code), r.reasoning)
    ensures settings.apiKey != "" && !outcome.HttpStatusError? && r.strategy != RemoteStrategy ==>
      IsPrefix(UnavailableReason, r.reasoning)
  {
    if settings.apiKey == "" then Heuristic(text, NoKeyReason)
    else
      match outcome
      case HttpStatusError(code) => Heuristic(text, HttpErrorReason(code))
      case OtherFailure => Heuristic(text, UnavailableReason)
      case Answered(content) =>
        match Interpret(content, settings.model)
        case Success(response) => response
        case Failure(_) => Heuristic(text, UnavailableReason)
  }

  /** Without a key the remote outcome and the model name play no part: the
      remote call is never made. */
  lemma WithoutKeyRemoteIsNotUsed(text: string, s1: Settings, s2: Settings, o1: RemoteOutcome, o2: RemoteOutcome)
    requires s1.apiKey == "" && s2.apiKey == ""
    ensures Classify(text, s1, o1) == Classify(text, s2, o2)
    ensures Classify(text, s1, o1).strategy == HeuristicStrategy
  {
  }

  /** An HTTP error status is cited in the fallback's reasoning, e.g. "(429)". */
  lemma HttpErrorCitesStatus(text: string, settings: Settings, code: nat)
    requires settings.apiKey != ""
    ensures Contains(Classify(text, settings, HttpStatusError(code)).reasoning, "(" + ShowNat(code) + ")")
  {
    var r := Classify(text, settings, HttpStatusError(code));
    PrefixContains(HttpErrorReason(code), r.reasoning, "(" + ShowNat(code) + ")");
  }

  lemma Parenthesised429()
    ensures "(" + ShowNat(429) + ")" == "(429)"
  {
    ShowNat429();
  }

  /** Status 429 is cited as "(429)". */
  lemma HttpTooManyRequestsCited(text: string, settings: Settings)
    requires settings.apiKey != ""
    ensures Contains(Classify(text, settings, HttpStatusError(429)).reasoning, "(429)")
  {
    HttpErrorCitesStatus(text, settings, 429);
    Parenthesised429();
  }

  /** An answer naming a category in lower case is still resolved to it, and
      the result is the remote one. */
  lemma RemoteLowerCaseCategory(text: string, settings: Settings)
    requires settings.apiKey != ""
    ensures var r := Classify(text, settings, Answered(map["category" := Some("financeiro")]));
      r.category == Financeiro && r.strategy == RemoteStrategy && r.model == settings.model
  {
    ResolveLowerCaseFinanceiro();
  }

  /** An answer naming no category is silently read as `Outros`; it is not
      treated as a failure of the remote strategy. */
  lemma RemoteUnknownCategory(text: string, settings: Settings)
    requires settings.apiKey != ""
    ensures var r := Classify(text, settings, Answered(map["category" := Some("Unknown")]));
      r.category == Outros && r.strategy == RemoteStrategy && r.reasoning == DefaultReasoning
  {
    ResolveUnknown();
  }

  /** A non-string category makes the answer unusable: the heuristic takes
      over with the unavailability reason. */
  lemma RemoteNonTextCategory(text: string, settings: Settings)
    requires settings.apiKey != ""
    ensures var r := Classify(text, settings, Answered(map["category" := None]));
      r.strategy == HeuristicStrategy && IsPrefix(UnavailableReason, r.reasoning)
  {
  }
}
