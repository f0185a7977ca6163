/** The request and response shapes of the classification service and the
    closed set of categories (app/schemas.py). */
module Schemas {
  import opened Wrappers
  import opened Text

  /** The six categories, in the order the enumeration declares them. */
  datatype Category = Processual | Financeiro | Suporte | Comercial | Administrativo | Outros

  /** The canonical string of each category: what the service serialises and
      what the remote model is asked to answer with. */
  function Label(c: Category): (s: string)
    ensures |s| > 0 && 'A' <= s[0] <= 'Z'
    ensures ',' !in s
  {
    match c
    case Processual => "Processual"
    case Financeiro => "Financeiro"
    case Suporte => "Suporte Técnico"
    case Comercial => "Comercial"
    case Administrativo => "Administrativo"
    case Outros => "Outros"
  }

  /** Iteration order of the enumeration. */
  const AllCategories: seq<Category> :=
    [Processual, Financeiro, Suporte, Comercial, Administrativo, Outros]

  /** Position of a category in the enumeration. */
  function IndexOf(c: Category): (i: nat)
    ensures i < |AllCategories| && AllCategories[i] == c
  {
    match c
    case Processual => 0
    case Financeiro => 1
    case Suporte => 2
    case Comercial => 3
    case Administrativo => 4
    case Outros => 5
  }

  /** Every category is listed, exactly once. */
  lemma AllCategoriesEnumerates()
    ensures |AllCategories| == 6
    ensures forall c: Category :: c in AllCategories
    ensures forall i, j :: 0 <= i < j < |AllCategories| ==> AllCategories[i] != AllCategories[j]
  {
    forall c: Category
      ensures c in AllCategories
    {
      assert AllCategories[IndexOf(c)] == c;
    }
  }

  /** No two categories share a label once case is ignored, so a
      case-insensitive lookup by label can never be ambiguous. */
  lemma LabelsDistinctIgnoringCase(c: Category, d: Category)
    requires c != d
    ensures Lower(Label(c)) != Lower(Label(d))
  {
    var x, y := Lower(Label(c)), Lower(Label(d));
    if |x| == |y| {
      assert x[0] != y[0];
    }
  }

  /** The first category of `cats` whose label equals `s` ignoring case. */
  function FindLabel(cats: seq<Category>, s: string): (r: Option<Category>)
    ensures r.Some? ==> r.value in cats && Lower(Label(r.value)) == Lower(s)
    ensures r.None? ==> forall i :: 0 <= i < |cats| ==> Lower(Label(cats[i])) != Lower(s)
  {
    if |cats| == 0 then None
    else if Lower(Label(cats[0])) == Lower(s) then Some(cats[0])
    else FindLabel(cats[1..], s)
  }

  /** The category an answer string names, defaulting to `Outros` when it
      names none: a search over the enumeration comparing lower-cased
      labels. */
  function Resolve(s: string): (c: Category)
    ensures forall d: Category :: d != Outros ==> (c == d <==> Lower(s) == Lower(Label(d)))
    ensures c == Outros <==> forall d: Category :: d != Outros ==> Lower(s) != Lower(Label(d))
  {
    var r := FindLabel(AllCategories, s);
    forall d: Category | d != Outros && Lower(s) == Lower(Label(d))
      ensures r == Some(d)
    {
      assert AllCategories[IndexOf(d)] == d;
      if r.Some? && r.value != d {
        LabelsDistinctIgnoringCase(r.value, d);
      }
    }
    r.GetOr(Outros)
  }

  /** Every canonical label, in any capitalisation, resolves to its own
      category. */
  lemma ResolveLabel(c: Category, s: string)
    requires Lower(s) == Lower(Label(c))
    ensures Resolve(s) == c
  {
    if c == Outros && Resolve(s) != Outros {
      LabelsDistinctIgnoringCase(Resolve(s), Outros);
    }
  }

  /** A lower-case answer names the same category as the canonical label. */
  lemma ResolveLowerCaseFinanceiro()
    ensures Resolve("financeiro") == Financeiro
  {
    var s := "financeiro";
    assert IsLowerCase(s);
    LowerOfLowerCase(s);
    assert Lower(Label(Financeiro)) == s;
    ResolveLabel(Financeiro, s);
  }

  /** An answer that is no label at all falls back to `Outros`. */
  lemma ResolveUnknown()
    ensures Resolve("Unknown") == Outros
  {
    forall d: Category | d != Outros
      ensures Lower("Unknown") != Lower(Label(d))
    {
      assert Lower("Unknown")[0] != Lower(Label(d))[0];
    }
  }

  // ---------------------------------------------------------------------
  // Request validation.

  const MinTextLength: nat := 3
  const MaxTextLength: nat := 2000

  datatype ClassificationRequest = ClassificationRequest(text: string)

  datatype ValidationError = TooShort(length: nat) | TooLong(length: nat)

  /** Field validation of an incoming request: the text must have between
      3 and 2000 characters, both inclusive. */
  function ValidateRequest(text: string): (r: Result<ClassificationRequest, ValidationError>)
    ensures r.Success? <==> MinTextLength <= |text| <= MaxTextLength
    ensures r.Success? ==> r.value.text == text
    ensures r.Failure? ==> (r.error.TooShort? <==> |text| < MinTextLength)
    ensures r.Failure? ==> r.error.length == |text|
  {
    if |text| < MinTextLength then Failure(TooShort(|text|))
    else if |text| > MaxTextLength then Failure(TooLong(|text|))
    else Success(ClassificationRequest(text))
  }

  // ---------------------------------------------------------------------
  // Response.

  /** The answer to every classification: a category, an explanation, the
      model that produced it and the strategy used. */
  datatype ClassificationResponse = ClassificationResponse(
    category: Category,
    reasoning: string,
    model: string,
    strategy: string)
}
