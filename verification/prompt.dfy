/** The system prompt template of the remote strategy (SYSTEM_PROMPT_TEMPLATE
    in app/resources.py) and the part of Python's `str.format` it relies on.

    The template is kept as a list of pieces: literal text, rendered as it
    stands, and named placeholders. Its source form, the string as written in
    the program, doubles every brace of the literal text; `Format` models
    Python's `str.format` over that source form, and `FormatSource` proves
    that formatting the source form gives back exactly the rendered pieces. */
module Prompt {
  import opened Wrappers
  import opened Text
  import Schemas

  datatype Piece = Literal(text: string) | Placeholder(name: string)

  datatype FormatError =
    | UnmatchedClose             // a single '}' outside a replacement field
    | UnclosedField              // a '{' with no '}' after it
    | UnknownField(field: string) // a replacement field naming no argument
    | PositionalField(field: string) // "{}" or "{0}": an index into the positional arguments, of which there are none

  /** `r` with `p` put in front of a successful value; errors pass through. */
  function Prepend(p: string, r: Result<string, FormatError>): (q: Result<string, FormatError>)
    ensures q.Success? <==> r.Success?
    ensures q.Success? ==> q.value == p + r.value
    ensures q.Failure? ==> q.error == r.error
  {
    match r
    case Success(v) => Success(p + v)
    case Failure(e) => Failure(e)
  }

  lemma PrependPrepend(a: string, b: string, r: Result<string, FormatError>)
    ensures Prepend(a, Prepend(b, r)) == Prepend(a + b, r)
  {
    if r.Success? {
      assert a + (b + r.value) == (a + b) + r.value;
    }
  }

  // ---------------------------------------------------------------------
  // Python's str.format with one keyword argument.

  /** Index of the first '}' of `s` at or after `i`, or `|s|` if there is none. */
  function CloseIndex(s: string, i: nat): (k: nat)
    requires i <= |s|
    ensures i <= k <= |s|
    ensures k < |s| ==> s[k] == '}'
    ensures forall j :: i <= j < k ==> s[j] != '}'
    decreases |s| - i
  {
    if i == |s| || s[i] == '}' then i else CloseIndex(s, i + 1)
  }

  /** `s.format(**{name: value})`: "{{" and "}}" stand for single braces, and
      "{f}" is replaced by `value` when `f` is `name`. A lone '}', a '{' never
      closed, a field that is empty or all digits (a positional index, and
      there are no positional arguments) and a field naming anything else are
      errors, reported for the left-most offending spot. */
  function Format(s: string, name: string, value: string): (r: Result<string, FormatError>)
    ensures '{' !in s && '}' !in s ==> r == Success(s)
    decreases |s|
  {
    if |s| == 0 then Success("")
    else if |s| >= 2 && s[0] == '{' && s[1] == '{' then Prepend("{", Format(s[2..], name, value))
    else if |s| >= 2 && s[0] == '}' && s[1] == '}' then Prepend("}", Format(s[2..], name, value))
    else if s[0] == '}' then Failure(UnmatchedClose)
    else if s[0] == '{' then
      var k := CloseIndex(s, 1);
      if k == |s| then Failure(UnclosedField)
      else if AllDigits(s[1..k]) then Failure(PositionalField(s[1..k]))
      else if s[1..k] == name then Prepend(value, Format(s[k + 1..], name, value))
      else Failure(UnknownField(s[1..k]))
    else
      assert s == [s[0]] + s[1..];
      Prepend([s[0]], Format(s[1..], name, value))
  }

  // ---------------------------------------------------------------------
  // Templates as pieces.

  predicate IsNameChar(c: char) {
    ('a' <= c <= 'z') || ('A' <= c <= 'Z') || ('0' <= c <= '9') || c == '_'
  }

  /** A field `str.format` reads as a positional index: automatic numbering
      when empty, an explicit index when all digits. */
  predicate AllDigits(f: string) {
    forall i :: 0 <= i < |f| ==> IsDigit(f[i])
  }

  /** A placeholder name is a keyword field: letters, digits and underscores,
      not all of them digits. */
  predicate ValidName(n: string) {
    && !AllDigits(n)
    && forall i :: 0 <= i < |n| ==> IsNameChar(n[i])
  }

  predicate ValidPieces(t: seq<Piece>) {
    forall i :: 0 <= i < |t| ==> (t[i].Placeholder? ==> ValidName(t[i].name))
  }

  /** Literal text as it is written inside a format string: braces doubled. */
  function Escape(s: string): (r: string)
    ensures |r| >= |s|
    ensures ('{' !in s && '}' !in s) ==> r == s
  {
    if |s| == 0 then ""
    else (if s[0] == '{' || s[0] == '}' then [s[0], s[0]] else [s[0]]) + Escape(s[1..])
  }

  /** The template as written in the program. */
  function Source(t: seq<Piece>): string {
    if |t| == 0 then ""
    else
      match t[0]
      case Literal(x) => Escape(x) + Source(t[1..])
      case Placeholder(n) => "{" + n + "}" + Source(t[1..])
  }

  /** The text the template stands for, with every placeholder named `name`
      replaced by `value`; any other placeholder is an error. */
  function Render(t: seq<Piece>, name: string, value: string): Result<string, FormatError> {
    if |t| == 0 then Success("")
    else
      match t[0]
      case Literal(x) => Prepend(x, Render(t[1..], name, value))
      case Placeholder(n) =>
        if n == name then Prepend(value, Render(t[1..], name, value)) else Failure(UnknownField(n))
  }

  /** The names of the placeholders, in order. */
  function Placeholders(t: seq<Piece>): seq<string> {
    if |t| == 0 then []
    else (if t[0].Placeholder? then [t[0].name] else []) + Placeholders(t[1..])
  }

  /** Formatting undoes escaping: escaped text comes out as it was. */
  lemma {:induction false} FormatEscaped(x: string, rest: string, name: string, value: string)
    ensures Format(Escape(x) + rest, name, value) == Prepend(x, Format(rest, name, value))
    decreases |x|
  {
    if |x| > 0 {
      var e := if x[0] == '{' || x[0] == '}' then [x[0], x[0]] else [x[0]];
      var tail := Escape(x[1..]) + rest;
      var s := Escape(x) + rest;
      assert s == e + tail;
      FormatEscaped(x[1..], rest, name, value);
      if x[0] == '{' || x[0] == '}' {
        assert s[2..] == tail;
        assert Format(s, name, value) == Prepend([x[0]], Format(tail, name, value));
      } else {
        assert s[1..] == tail;
        assert Format(s, name, value) == Prepend([x[0]], Format(tail, name, value));
      }
      PrependPrepend([x[0]], x[1..], Format(rest, name, value));
      assert [x[0]] + x[1..] == x;
    } else {
      assert Escape(x) + rest == rest;
      assert x + "" == x;
      match Format(rest, name, value)
      case Success(v) => assert x + v == v;
      case Failure(_) =>
    }
  }

  /** A placeholder written "{n}" is replaced when `n` is the argument's name
      and is an error otherwise. */
  lemma FormatPlaceholder(n: string, rest: string, name: string, value: string)
    requires ValidName(n)
    ensures Format("{" + n + "}" + rest, name, value)
         == if n == name then Prepend(value, Format(rest, name, value)) else Failure(UnknownField(n))
  {
    var s := "{" + n + "}" + rest;
    assert s[0] == '{' && s[1] != '{';
    assert forall j :: 1 <= j <= |n| ==> s[j] == n[j - 1];
    assert s[|n| + 1] == '}';
    assert CloseIndex(s, 1) == |n| + 1;
    assert s[1..|n| + 1] == n;
    assert s[|n| + 2..] == rest;
  }

  /** A field that is empty or all digits is a positional index, and with
      keyword arguments only it is an error, whatever the argument's name. */
  lemma FormatPositional(n: string, rest: string, name: string, value: string)
    requires AllDigits(n)
    ensures Format("{" + n + "}" + rest, name, value) == Failure(PositionalField(n))
  {
    var s := "{" + n + "}" + rest;
    assert s[0] == '{';
    assert |n| > 0 ==> s[1] == n[0] && IsDigit(n[0]);
    assert forall j :: 1 <= j <= |n| ==> s[j] == n[j - 1];
    assert s[|n| + 1] == '}';
    assert CloseIndex(s, 1) == |n| + 1;
    assert s[1..|n| + 1] == n;
  }

  /** Python's `str.format` applied to the source form of a template gives
      exactly the template's rendering, errors included. */
  lemma {:induction false} FormatSource(t: seq<Piece>, name: string, value: string)
    requires ValidPieces(t)
    ensures Format(Source(t), name, value) == Render(t, name, value)
    decreases |t|
  {
    if |t| == 0 {
    } else {
      assert ValidPieces(t[1..]);
      match t[0]
      case Literal(x) =>
        FormatEscaped(x, Source(t[1..]), name, value);
        FormatSource(t[1..], name, value);
      case Placeholder(n) =>
        FormatPlaceholder(n, Source(t[1..]), name, value);
        if n == name {
          FormatSource(t[1..], name, value);
        }
    }
  }

  // ---------------------------------------------------------------------
  // The system prompt.

  /** A worked example shown to the remote model: an input and the exact
      answer expected for it. */
  datatype Example = Example(input: string, category: string, reasoning: string)

  const Examples: seq<Example> := [
    Example("Qual o prazo para recurso de apelação neste processo?",
            "Processual",
            "Questão sobre prazo e recurso processual"),
    Example("Preciso de uma cópia do processo, pode encaminhar por email?",
            "Administrativo",
            "Solicitação de documento e logística de entrega"),
    Example("A tela está congelada, não consigo fazer login no sistema",
            "Suporte Técnico",
            "Problema técnico de acesso ao sistema"),
    Example("Gostaria de receber uma proposta para novos casos de direito trabalhista",
            "Comercial",
            "Interesse em novo negócio/contrato"),
    Example("Qual é o valor das custas processuais deste caso?",
            "Financeiro",
            "Questão sobre valores e custas processuais")
  ]

  /** An example as the prompt shows it; the braces of the JSON answer are
      literal braces. */
  function ExampleText(e: Example): string {
    "- Entrada: \"" + e.input + "\"\n" +
    "  Saída: {\"category\": \"" + e.category + "\", \"reasoning\": \"" + e.reasoning + "\"}\n" +
    "\n"
  }

  function ExamplesText(es: seq<Example>): string {
    if |es| == 0 then "" else ExampleText(es[0]) + ExamplesText(es[1..])
  }

  const Introduction: string :=
    "\n" +
    "Você é um classificador jurídico especializado do sistema Nexus. Sua tarefa é analisar a mensagem do usuário e classificá-la em uma das seguintes categorias, baseando-se no **contexto e intenção**, não apenas em palavras isoladas.\n" +
    "\n" +
    "CATEGORIAS:\n" +
    "1. **Processual**: Assuntos relacionados a processos judiciais, prazos, audiências, decisões, recursos, liminares, andamento processual.\n" +
    "2. **Financeiro**: Assuntos de pagamento, custas processuais, honorários, cobranças, faturas, reembolsos, fluxo de caixa.\n" +
    "3. **Suporte Técnico**: Problemas técnicos, acesso ao sistema, erros, bugs, autenticação, performance, indisponibilidade.\n" +
    "4. **Comercial**: Novos negócios, propostas comerciais, parcerias, prospecção de clientes, contratos, licitações.\n" +
    "5. **Administrativo**: Agendamentos, solicitação de documentos, logística, organização de recursos, secretaria.\n" +
    "6. **Outros**: Mensagens genéricas, saudações ou que não se encaixam nas categorias acima.\n" +
    "\n" +
    "EXEMPLOS (Few-Shot):\n"

  const Instructions: string :=
    "INSTRUÇÕES:\n" +
    "- Analise o CONTEXTO e a INTENÇÃO da mensagem, não apenas palavras-chave isoladas\n" +
    "- Uma mensagem pode conter múltiplas palavras-chave, mas classifique pela intenção principal do usuário\n" +
    "- Seja consistente e lógico na classificação\n" +
    "- Retorne SEMPRE um JSON válido com as chaves 'category' (nome exato da categoria) e 'reasoning' (breve explicação)\n" +
    "\n" +
    "CATEGORIAS DISPONÍVEIS: "

  const Closing: string := "\n\nAgora, classifique a mensagem do usuário:\n"

  const PlaceholderName: string := "categories"

  /** Everything the prompt says before the list of categories. */
  const Preamble: string := Introduction + ExamplesText(Examples) + Instructions

  /** The system prompt template: the preamble, the single placeholder, and
      the closing request. */
  const SystemPromptTemplate: seq<Piece> :=
    [Literal(Preamble), Placeholder(PlaceholderName), Literal(Closing)]

  /** `categories` is a keyword field: it starts with a letter. */
  lemma PlaceholderNameValid()
    ensures ValidName(PlaceholderName)
  {
    assert !IsDigit(PlaceholderName[0]);
  }

  /** The template has exactly one placeholder, `categories`. */
  lemma TemplatePlaceholders()
    ensures Placeholders(SystemPromptTemplate) == [PlaceholderName]
    ensures ValidPieces(SystemPromptTemplate)
  {
    var t := SystemPromptTemplate;
    assert t[1..][1..][1..] == [];
    assert Placeholders(t[1..][1..]) == [];
    assert Placeholders(t[1..]) == [PlaceholderName];
    PlaceholderNameValid();
  }

  /** Formatting a template made of text, one placeholder and text. */
  lemma FormatAroundPlaceholder(pre: string, n: string, post: string, name: string, v: string)
    requires ValidName(n)
    ensures name == n ==>
      Format(Source([Literal(pre), Placeholder(n), Literal(post)]), name, v) == Success(pre + v + post)
    ensures name != n ==>
      Format(Source([Literal(pre), Placeholder(n), Literal(post)]), name, v) == Failure(UnknownField(n))
  {
    var t := [Literal(pre), Placeholder(n), Literal(post)];
    assert ValidPieces(t);
    FormatSource(t, name, v);
    assert t[1..][1..][1..] == [];
    assert Render(t[1..][1..], name, v) == Success(post) by {
      assert post + "" == post;
    }
    if name == n {
      assert Render(t[1..], name, v) == Success(v + post);
      assert pre + (v + post) == pre + v + post;
    }
  }

  /** Formatting the template with `categories` set to `v` succeeds and
      yields the examples with single braces and `v` in the placeholder's
      place; formatting it with any other argument name fails on the
      `categories` field. */
  lemma TemplateFormatting(name: string, v: string)
    ensures name == PlaceholderName ==>
      Format(Source(SystemPromptTemplate), name, v) == Success(Preamble + v + Closing)
    ensures name != PlaceholderName ==>
      Format(Source(SystemPromptTemplate), name, v) == Failure(UnknownField(PlaceholderName))
  {
    PlaceholderNameValid();
    FormatAroundPlaceholder(Preamble, PlaceholderName, Closing, name, v);
  }

  /** There are five examples, one per category other than `Outros`, and
      every answer names its category by its canonical label. */
  lemma ExampleCategoriesCanonical()
    ensures |Examples| == 5
    ensures Examples[0].category == Schemas.Label(Schemas.Processual)
    ensures Examples[1].category == Schemas.Label(Schemas.Administrativo)
    ensures Examples[2].category == Schemas.Label(Schemas.Suporte)
    ensures Examples[3].category == Schemas.Label(Schemas.Comercial)
    ensures Examples[4].category == Schemas.Label(Schemas.Financeiro)
    ensures forall i :: 0 <= i < |Examples| ==>
      exists c: Schemas.Category :: c != Schemas.Outros && Schemas.Label(c) == Examples[i].category
  {
    var cs := [Schemas.Processual, Schemas.Administrativo, Schemas.Suporte, Schemas.Comercial, Schemas.Financeiro];
    forall i | 0 <= i < |Examples|
      ensures exists c: Schemas.Category :: c != Schemas.Outros && Schemas.Label(c) == Examples[i].category
    {
      assert Schemas.Label(cs[i]) == Examples[i].category;
    }
  }
}
