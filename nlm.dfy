/**
 * The National Library of Medicine style: templates for journal and
 * newspaper articles only, the two-entry formatter table, and the list
 * formatter that renders every record and sorts by the formatted text alone.
 */
module Nlm {
  import opened Wrappers
  import opened Text
  import opened Models
  import opened Templates
  import opened Citations
  import opened Sorting

  /** The formatter classes of the style. */
  datatype NlmFormatter = NLMJournalArticle | NLMNewspaper

  /** The model class each formatter's `data` field is declared with. */
  function DataKind(f: NlmFormatter): Kind {
    match f
    case NLMJournalArticle => JournalArticleKind
    case NLMNewspaper => NewspaperKind
  }

  // ----- NLMJournalArticle -----

  /** "$authors $article_title. $journal_title. $year;$issue:$pages." */
  const JournalArticleTemplate: Template := [
    Placeholder("authors"), Text(" "), Placeholder("article_title"), Text(". "),
    Placeholder("journal_title"), Text(". "), Placeholder("year"), Text(";"),
    Placeholder("issue"), Text(":"), Placeholder("pages"), Text(".")]

  function JournalArticleKwargs(j: JournalArticleModel): map<string, string> {
    map[
      "authors" := j.authors,
      "article_title" := j.articleTitle,
      "journal_title" := j.journalTitle,
      "year" := IntToString(j.year),
      "issue" := IntToString(j.issue),
      "pages" := j.pages]
  }

  /** `NLMJournalArticle(j).formatted`. */
  function NLMJournalArticleFormatted(j: JournalArticleModel): Result<string, string> {
    Substitute(JournalArticleTemplate, JournalArticleKwargs(j))
  }

  /** The first 4 pieces of the template, filled with the same values. */
  lemma JournalArticleTemplatePrefix4(authors: string, articleTitle: string, journalTitle: string, year: string, issue: string, pages: string)
    ensures Substitute(JournalArticleTemplate[..4], map["authors" := authors, "article_title" := articleTitle, "journal_title" := journalTitle, "year" := year, "issue" := issue, "pages" := pages])
      == Ok(authors + " " + articleTitle + ". ")
  {
    var kwargs := map["authors" := authors, "article_title" := articleTitle, "journal_title" := journalTitle, "year" := year, "issue" := issue, "pages" := pages];
    assert JournalArticleTemplate[..1][..0] == [];
    assert "" + authors == authors;
    assert Substitute(JournalArticleTemplate[..1], kwargs) == Ok(authors);
    assert JournalArticleTemplate[..2][..1] == JournalArticleTemplate[..1];
    assert Substitute(JournalArticleTemplate[..2], kwargs) == Ok(authors + " ");
    assert JournalArticleTemplate[..3][..2] == JournalArticleTemplate[..2];
    assert Substitute(JournalArticleTemplate[..3], kwargs) == Ok(authors + " " + articleTitle);
    assert JournalArticleTemplate[..4][..3] == JournalArticleTemplate[..3];
    assert Substitute(JournalArticleTemplate[..4], kwargs) == Ok(authors + " " + articleTitle + ". ");
  }

  /** The first 8 pieces of the template, filled with the same values. */
  lemma JournalArticleTemplatePrefix8(authors: string, articleTitle: string, journalTitle: string, year: string, issue: string, pages: string)
    ensures Substitute(JournalArticleTemplate[..8], map["authors" := authors, "article_title" := articleTitle, "journal_title" := journalTitle, "year" := year, "issue" := issue, "pages" := pages])
      == Ok(authors + " " + articleTitle + ". " + journalTitle + ". " + year + ";")
  {
    var kwargs := map["authors" := authors, "article_title" := articleTitle, "journal_title" := journalTitle, "year" := year, "issue" := issue, "pages" := pages];
    JournalArticleTemplatePrefix4(authors, articleTitle, journalTitle, year, issue, pages);
    assert JournalArticleTemplate[..5][..4] == JournalArticleTemplate[..4];
    assert Substitute(JournalArticleTemplate[..5], kwargs) == Ok(authors + " " + articleTitle + ". " + journalTitle);
    assert JournalArticleTemplate[..6][..5] == JournalArticleTemplate[..5];
    assert Substitute(JournalArticleTemplate[..6], kwargs) == Ok(authors + " " + articleTitle + ". " + journalTitle + ". ");
    assert JournalArticleTemplate[..7][..6] == JournalArticleTemplate[..6];
    assert Substitute(JournalArticleTemplate[..7], kwargs) == Ok(authors + " " + articleTitle + ". " + journalTitle + ". " + year);
    assert JournalArticleTemplate[..8][..7] == JournalArticleTemplate[..7];
    assert Substitute(JournalArticleTemplate[..8], kwargs) == Ok(authors + " " + articleTitle + ". " + journalTitle + ". " + year + ";");
  }

  /** The journal article template, filled with any six values, is these pieces in this order. */
  lemma JournalArticleTemplateText(authors: string, articleTitle: string, journalTitle: string, year: string, issue: string, pages: string)
    ensures Substitute(JournalArticleTemplate, map["authors" := authors, "article_title" := articleTitle, "journal_title" := journalTitle, "year" := year, "issue" := issue, "pages" := pages])
      == Ok(authors + " " + articleTitle + ". " + journalTitle + ". " + year + ";" + issue + ":" + pages + ".")
  {
    var kwargs := map["authors" := authors, "article_title" := articleTitle, "journal_title" := journalTitle, "year" := year, "issue" := issue, "pages" := pages];
    JournalArticleTemplatePrefix8(authors, articleTitle, journalTitle, year, issue, pages);
    assert JournalArticleTemplate[..9][..8] == JournalArticleTemplate[..8];
    assert Substitute(JournalArticleTemplate[..9], kwargs) == Ok(authors + " " + articleTitle + ". " + journalTitle + ". " + year + ";" + issue);
    assert JournalArticleTemplate[..10][..9] == JournalArticleTemplate[..9];
    assert Substitute(JournalArticleTemplate[..10], kwargs) == Ok(authors + " " + articleTitle + ". " + journalTitle + ". " + year + ";" + issue + ":");
    assert JournalArticleTemplate[..11][..10] == JournalArticleTemplate[..10];
    assert Substitute(JournalArticleTemplate[..11], kwargs) == Ok(authors + " " + articleTitle + ". " + journalTitle + ". " + year + ";" + issue + ":" + pages);
    assert JournalArticleTemplate[..12][..11] == JournalArticleTemplate[..11];
    assert Substitute(JournalArticleTemplate[..12], kwargs) == Ok(authors + " " + articleTitle + ". " + journalTitle + ". " + year + ";" + issue + ":" + pages + ".");
    assert JournalArticleTemplate[..12] == JournalArticleTemplate;
  }

  /** A journal article: authors, title, journal, then "year;issue:pages." with no spaces. */
  lemma NLMJournalArticleLayout(j: JournalArticleModel)
    ensures NLMJournalArticleFormatted(j) == Ok(j.authors + " " + j.articleTitle + ". " + j.journalTitle + ". " + IntToString(j.year) + ";" + IntToString(j.issue) + ":" + j.pages + ".")
  {
    JournalArticleTemplateText(j.authors, j.articleTitle, j.journalTitle, IntToString(j.year), IntToString(j.issue), j.pages);
  }

  // ----- NLMNewspaper -----

  /** "$authors $article_title. $newspaper_title. $date.$year;$issue." */
  const NewspaperTemplate: Template := [
    Placeholder("authors"), Text(" "), Placeholder("article_title"), Text(". "),
    Placeholder("newspaper_title"), Text(". "), Placeholder("date"), Text("."),
    Placeholder("year"), Text(";"), Placeholder("issue"), Text(".")]

  function NewspaperKwargs(n: NewspaperModel): map<string, string> {
    map[
      "authors" := n.authors,
      "article_title" := n.articleTitle,
      "newspaper_title" := n.newspaperTitle,
      "year" := IntToString(n.year),
      "date" := n.date,
      "issue" := IntToString(n.issue)]
  }

  /** `NLMNewspaper(n).formatted`. */
  function NLMNewspaperFormatted(n: NewspaperModel): Result<string, string> {
    Substitute(NewspaperTemplate, NewspaperKwargs(n))
  }

  /** The first 4 pieces of the template, filled with the same values. */
  lemma NewspaperTemplatePrefix4(authors: string, articleTitle: string, newspaperTitle: string, date: string, year: string, issue: string)
    ensures Substitute(NewspaperTemplate[..4], map["authors" := authors, "article_title" := articleTitle, "newspaper_title" := newspaperTitle, "year" := year, "date" := date, "issue" := issue])
      == Ok(authors + " " + articleTitle + ". ")
  {
    var kwargs := map["authors" := authors, "article_title" := articleTitle, "newspaper_title" := newspaperTitle, "year" := year, "date" := date, "issue" := issue];
    assert NewspaperTemplate[..1][..0] == [];
    assert "" + authors == authors;
    assert Substitute(NewspaperTemplate[..1], kwargs) == Ok(authors);
    assert NewspaperTemplate[..2][..1] == NewspaperTemplate[..1];
    assert Substitute(NewspaperTemplate[..2], kwargs) == Ok(authors + " ");
    assert NewspaperTemplate[..3][..2] == NewspaperTemplate[..2];
    assert Substitute(NewspaperTemplate[..3], kwargs) == Ok(authors + " " + articleTitle);
    assert NewspaperTemplate[..4][..3] == NewspaperTemplate[..3];
    assert Substitute(NewspaperTemplate[..4], kwargs) == Ok(authors + " " + articleTitle + ". ");
  }

  /** The first 8 pieces of the template, filled with the same values. */
  lemma NewspaperTemplatePrefix8(authors: string, articleTitle: string, newspaperTitle: string, date: string, year: string, issue: string)
    ensures Substitute(NewspaperTemplate[..8], map["authors" := authors, "article_title" := articleTitle, "newspaper_title" := newspaperTitle, "year" := year, "date" := date, "issue" := issue])
      == Ok(authors + " " + articleTitle + ". " + newspaperTitle + ". " + date + ".")
  {
    var kwargs := map["authors" := authors, "article_title" := articleTitle, "newspaper_title" := newspaperTitle, "year" := year, "date" := date, "issue" := issue];
    NewspaperTemplatePrefix4(authors, articleTitle, newspaperTitle, date, year, issue);
    assert NewspaperTemplate[..5][..4] == NewspaperTemplate[..4];
    assert Substitute(NewspaperTemplate[..5], kwargs) == Ok(authors + " " + articleTitle + ". " + newspaperTitle);
    assert NewspaperTemplate[..6][..5] == NewspaperTemplate[..5];
    assert Substitute(NewspaperTemplate[..6], kwargs) == Ok(authors + " " + articleTitle + ". " + newspaperTitle + ". ");
    assert NewspaperTemplate[..7][..6] == NewspaperTemplate[..6];
    assert Substitute(NewspaperTemplate[..7], kwargs) == Ok(authors + " " + articleTitle + ". " + newspaperTitle + ". " + date);
    assert NewspaperTemplate[..8][..7] == NewspaperTemplate[..7];
    assert Substitute(NewspaperTemplate[..8], kwargs) == Ok(authors + " " + articleTitle + ". " + newspaperTitle + ". " + date + ".");
  }

  /** The newspaper template, filled with any six values, is these pieces in this order. */
  lemma NewspaperTemplateText(authors: string, articleTitle: string, newspaperTitle: string, date: string, year: string, issue: string)
    ensures Substitute(NewspaperTemplate, map["authors" := authors, "article_title" := articleTitle, "newspaper_title" := newspaperTitle, "year" := year, "date" := date, "issue" := issue])
      == Ok(authors + " " + articleTitle + ". " + newspaperTitle + ". " + date + "." + year + ";" + issue + ".")
  {
    var kwargs := map["authors" := authors, "article_title" := articleTitle, "newspaper_title" := newspaperTitle, "year" := year, "date" := date, "issue" := issue];
    NewspaperTemplatePrefix8(authors, articleTitle, newspaperTitle, date, year, issue);
    assert NewspaperTemplate[..9][..8] == NewspaperTemplate[..8];
    assert Substitute(NewspaperTemplate[..9], kwargs) == Ok(authors + " " + articleTitle + ". " + newspaperTitle + ". " + date + "." + year);
    assert NewspaperTemplate[..10][..9] == NewspaperTemplate[..9];
    assert Substitute(NewspaperTemplate[..10], kwargs) == Ok(authors + " " + articleTitle + ". " + newspaperTitle + ". " + date + "." + year + ";");
    assert NewspaperTemplate[..11][..10] == NewspaperTemplate[..10];
    assert Substitute(NewspaperTemplate[..11], kwargs) == Ok(authors + " " + articleTitle + ". " + newspaperTitle + ". " + date + "." + year + ";" + issue);
    assert NewspaperTemplate[..12][..11] == NewspaperTemplate[..11];
    assert Substitute(NewspaperTemplate[..12], kwargs) == Ok(authors + " " + articleTitle + ". " + newspaperTitle + ". " + date + "." + year + ";" + issue + ".");
    assert NewspaperTemplate[..12] == NewspaperTemplate;
  }

  /** A newspaper article: authors, title, newspaper, then "date.year;issue." with the date first. */
  lemma NLMNewspaperLayout(n: NewspaperModel)
    ensures NLMNewspaperFormatted(n) == Ok(n.authors + " " + n.articleTitle + ". " + n.newspaperTitle + ". " + n.date + "." + IntToString(n.year) + ";" + IntToString(n.issue) + ".")
  {
    NewspaperTemplateText(n.authors, n.articleTitle, n.newspaperTitle, n.date, IntToString(n.year), IntToString(n.issue));
  }

  // ----- dispatch -----

  /** `formatters_map`: only journal articles and newspapers have a formatter. */
  const FormattersMap: map<Kind, NlmFormatter> := map[
    JournalArticleKind := NLMJournalArticle,
    NewspaperKind := NLMNewspaper]

  /**
   * The table covers exactly journal and newspaper articles, each sent to the
   * formatter declared for it; books, internet resources and collection
   * articles have no entry.
   */
  lemma FormattersMapDomain(k: Kind)
    ensures k in FormattersMap <==> k == JournalArticleKind || k == NewspaperKind
    ensures k in FormattersMap ==> DataKind(FormattersMap[k]) == k
  {
  }

  /** `f(m).formatted` for a formatter and a record of the class it is declared for; it never raises. */
  function Formatted(f: NlmFormatter, m: Model): (r: Result<string, string>)
    requires m.KindOf() == DataKind(f)
    ensures r.Ok?
  {
    match f
    case NLMJournalArticle => NLMJournalArticleLayout(m.journal); NLMJournalArticleFormatted(m.journal)
    case NLMNewspaper => NLMNewspaperLayout(m.newspaper); NLMNewspaperFormatted(m.newspaper)
  }

  /**
   * One step of `__init__`: `formatters_map.get` yields None for a class
   * without an entry, and calling it raises; otherwise the formatter object.
   */
  function Render(m: Model): (r: Result<Item<NlmFormatter>, FormatError>)
    ensures r.Err? <==> m.KindOf() !in FormattersMap
    ensures r.Err? ==> r.error == UnsupportedModel(m.KindOf())
    ensures r.Ok? ==> r.value.data == m && r.value.formatter == FormattersMap[m.KindOf()]
    ensures r.Ok? ==> r.value.formatted == Formatted(r.value.formatter, m).value
  {
    var k := m.KindOf();
    if k !in FormattersMap then Err(UnsupportedModel(k))
    else
      var f := FormattersMap[k];
      FormattersMapDomain(k);
      Ok(Item(f, m, Formatted(f, m).value))
  }

  /** Every record's class has a formatter. */
  predicate AllSupported(models: seq<Model>) {
    forall i :: 0 <= i < |models| ==> models[i].KindOf() in FormattersMap
  }

  /** Position `i` holds the first record whose class has no formatter. */
  predicate FirstUnsupported(models: seq<Model>, i: int) {
    && 0 <= i < |models|
    && models[i].KindOf() !in FormattersMap
    && AllSupported(models[..i])
  }

  /**
   * What `__init__` stores in `formatted_items`: the records rendered one by
   * one in input order; or, when some record has no formatter, the error of
   * the first such record and no list at all.
   */
  function FormatAll(models: seq<Model>): (r: Result<seq<Item<NlmFormatter>>, FormatError>)
    ensures r.Ok? <==> AllSupported(models)
    ensures r.Err? ==> exists i :: FirstUnsupported(models, i) && r.error == UnsupportedModel(models[i].KindOf())
    ensures r.Ok? ==> RenderedFrom(r.value, models, Render)
    decreases |models|
  {
    if models == [] then Ok([])
    else
      var n := |models| - 1;
      match FormatAll(models[..n])
      case Err(e) =>
        var i :| FirstUnsupported(models[..n], i) && e == UnsupportedModel(models[..n][i].KindOf());
        FirstUnsupportedExtend(models, i);
        Err(e)
      case Ok(items) =>
        match Render(models[n])
        case Err(e) =>
          SupportedPrefix(models, n);
          Err(e)
        case Ok(item) =>
          SupportedPrefix(models, n);
          RenderedFromExtend(items, models, Render);
          Ok(items + [item])
  }

  /** The first unsupported record of a prefix is the first of the whole list, and the list is not all supported. */
  lemma FirstUnsupportedExtend(models: seq<Model>, i: int)
    requires |models| > 0 && FirstUnsupported(models[..|models| - 1], i)
    ensures FirstUnsupported(models, i) && !AllSupported(models)
  {
    var front := models[..|models| - 1];
    assert front[..i] == models[..i];
  }

  /** A list is all supported when its front is and its last record is; else its last record is the first unsupported one. */
  lemma SupportedPrefix(models: seq<Model>, n: int)
    requires n == |models| - 1 >= 0 && AllSupported(models[..n])
    ensures AllSupported(models) <==> models[n].KindOf() in FormattersMap
    ensures models[n].KindOf() !in FormattersMap ==> FirstUnsupported(models, n)
  {
    assert forall i :: 0 <= i < n ==> models[..n][i] == models[i];
  }

  /** Two positions that are both the first unsupported record are the same position. */
  lemma FirstUnsupportedUnique(models: seq<Model>, i: int, j: int)
    requires FirstUnsupported(models, i) && FirstUnsupported(models, j)
    ensures i == j
  {
  }

  /**
   * A list holding a book, an internet resource or a collection article,
   * anywhere, cannot be formatted in this style: the error names the first such
   * record's class.
   */
  lemma UnsupportedKinds(models: seq<Model>, i: int)
    requires FirstUnsupported(models, i)
    ensures FormatAll(models) == Err(UnsupportedModel(models[i].KindOf()))
    ensures models[i].KindOf() in {BookKind, InternetResourceKind, ArticlesCollectionKind}
  {
    FormattersMapDomain(models[i].KindOf());
    var j :| FirstUnsupported(models, j) && FormatAll(models).error == UnsupportedModel(models[j].KindOf());
    FirstUnsupportedUnique(models, i, j);
  }

  /** A bibliography of a single book fails in this style, naming the book's class. */
  lemma BookRejected(b: BookModel)
    ensures FormatAll([Book(b)]) == Err(UnsupportedModel(BookKind))
  {
    assert [Book(b)][..0] == [];
    UnsupportedKinds([Book(b)], 0);
  }

  // ----- sorting -----

  /** `key(a) <= key(b)` for the key `item.formatted`: the formatter class plays no part. */
  predicate KeyLe(a: Item<NlmFormatter>, b: Item<NlmFormatter>) {
    LexLe(a.formatted, b.formatted)
  }

  lemma KeyLeTotalPreorder()
    ensures TotalPreorder(KeyLe)
  {
    forall a: Item<NlmFormatter>, b: Item<NlmFormatter>
      ensures KeyLe(a, b) || KeyLe(b, a)
    {
      LexLeTotal(a.formatted, b.formatted);
    }
    forall a: Item<NlmFormatter>, b: Item<NlmFormatter>, c: Item<NlmFormatter> | KeyLe(a, b) && KeyLe(b, c)
      ensures KeyLe(a, c)
    {
      LexLeTransitive(a.formatted, b.formatted, c.formatted);
    }
  }

  /** Two items have equal keys exactly when their formatted texts are equal, whatever their kinds. */
  lemma KeyLeSameKey(a: Item<NlmFormatter>, b: Item<NlmFormatter>)
    ensures SameKey(KeyLe, a, b) <==> a.formatted == b.formatted
  {
    if SameKey(KeyLe, a, b) {
      LexLeAntisymmetric(a.formatted, b.formatted);
    }
    if a.formatted == b.formatted {
      LexLeReflexive(a.formatted);
    }
  }

  /** The items are in the order of their formatted text. */
  predicate Alphabetical(r: seq<Item<NlmFormatter>>) {
    forall i, j :: 0 <= i < j < |r| ==> LexLe(r[i].formatted, r[j].formatted)
  }

  /** `sorted(items, key=lambda item: item.formatted)`. */
  function SortItems(items: seq<Item<NlmFormatter>>): (r: seq<Item<NlmFormatter>>)
    ensures multiset(r) == multiset(items)
    ensures Alphabetical(r)
    ensures StableOrder(r, items, KeyLe)
  {
    KeyLeTotalPreorder();
    var r := Sort(items, KeyLe);
    assert forall i, j :: 0 <= i < j < |r| ==> KeyLe(r[i], r[j]);
    r
  }

  /** Any stable sort of the items by their formatted text returns exactly `SortItems`. */
  lemma SortItemsUnique(items: seq<Item<NlmFormatter>>, r: seq<Item<NlmFormatter>>)
    requires Sorted(r, KeyLe) && StableOrder(r, items, KeyLe)
    ensures r == SortItems(items)
  {
    KeyLeTotalPreorder();
    SortedStableUnique(r, SortItems(items), KeyLe);
  }

  /**
   * `NLMCitationFormatter`: the formatted list of a bibliography in the NLM
   * style. The constructor stores a list that is already rendered. `Build` is
   * the route from records, the call `NLMCitationFormatter(models)`: it may
   * raise, and it creates an object only when every record has a formatter.
   */
  class NLMCitationFormatter {
    var formattedItems: seq<Item<NlmFormatter>>

    /** The object `__init__` leaves behind once every record has rendered. */
    constructor (items: seq<Item<NlmFormatter>>)
      ensures formattedItems == items
    {
      formattedItems := items;
    }

    /**
     * `NLMCitationFormatter(models)`: renders the records in order and stops at
     * the first one whose class has no formatter, leaving no object behind.
     */
    static method Build(models: seq<Model>) returns (r: Result<NLMCitationFormatter, FormatError>)
      ensures r.Err? <==> FormatAll(models).Err?
      ensures r.Err? ==> r.error == FormatAll(models).error
      ensures r.Ok? ==> fresh(r.value) && r.value.formattedItems == FormatAll(models).value
    {
      var items: seq<Item<NlmFormatter>> := [];
      for i := 0 to |models|
        invariant FormatAll(models[..i]) == Ok(items)
      {
        var m := models[i];
        var k := m.KindOf();
        if k !in FormattersMap {
          assert FirstUnsupported(models, i);
          UnsupportedKinds(models, i);
          return Err(UnsupportedModel(k));
        }
        FormattersMapDomain(k);
        var f := FormattersMap[k];
        var text := Formatted(f, m);
        items := items + [Item(f, m, text.value)];
        assert models[..i + 1][..i] == models[..i];
      }
      assert models[..|models|] == models;
      var formatter := new NLMCitationFormatter(items);
      return Ok(formatter);
    }

    /** `format()`: the items sorted by their formatted text alone, stably. */
    function Format(): (r: seq<Item<NlmFormatter>>)
      reads this
      ensures r == SortItems(formattedItems)
      ensures multiset(r) == multiset(formattedItems)
      ensures Alphabetical(r)
      ensures StableOrder(r, formattedItems, KeyLe)
    {
      SortItems(formattedItems)
    }
  }
}
