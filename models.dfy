/**
 * The source records: one value type per pydantic model, the union the
 * formatters dispatch on, and the field constraints checked at construction.
 */
module Models {
  import opened Wrappers
  import opened Text

  /** The model class of a record; the formatters' tables are keyed by it (`type(model).__name__`). */
  datatype Kind = BookKind | InternetResourceKind | ArticlesCollectionKind | JournalArticleKind | NewspaperKind

  /** A book. `year` and `pages` are declared `gt=0`; `edition` is optional. */
  datatype BookModel = BookModel(
    authors: string,
    title: string,
    edition: Option<string>,
    city: string,
    publishingHouse: string,
    year: int,
    pages: int)
  {
    predicate Valid() {
      year > 0 && pages > 0
    }
  }

  /** A web page: four text fields, `accessDate` is not parsed. */
  datatype InternetResourceModel = InternetResourceModel(
    article: string,
    website: string,
    link: string,
    accessDate: string)

  /** An article in a collection. `year` is declared `gt=0`; `pages` is free text such as "25-30". */
  datatype ArticlesCollectionModel = ArticlesCollectionModel(
    authors: string,
    articleTitle: string,
    collectionTitle: string,
    city: string,
    publishingHouse: string,
    year: int,
    pages: string)
  {
    predicate Valid() {
      year > 0
    }
  }

  /** A journal article. `year` and `issue` are declared `gt=0`; `pages` is text. */
  datatype JournalArticleModel = JournalArticleModel(
    authors: string,
    articleTitle: string,
    journalTitle: string,
    year: int,
    issue: int,
    pages: string)
  {
    predicate Valid() {
      year > 0 && issue > 0
    }
  }

  /** A newspaper article. `year` and `issue` are declared `gt=0`; `date` is text. */
  datatype NewspaperModel = NewspaperModel(
    authors: string,
    articleTitle: string,
    newspaperTitle: string,
    year: int,
    date: string,
    issue: int)
  {
    predicate Valid() {
      year > 0 && issue > 0
    }
  }

  /** Any record, tagged with its model class. */
  datatype Model =
    | Book(book: BookModel)
    | InternetResource(resource: InternetResourceModel)
    | ArticlesCollection(collection: ArticlesCollectionModel)
    | JournalArticle(journal: JournalArticleModel)
    | Newspaper(newspaper: NewspaperModel)
  {
    function KindOf(): Kind {
      match this
      case Book(_) => BookKind
      case InternetResource(_) => InternetResourceKind
      case ArticlesCollection(_) => ArticlesCollectionKind
      case JournalArticle(_) => JournalArticleKind
      case Newspaper(_) => NewspaperKind
    }

    predicate Valid() {
      match this
      case Book(b) => b.Valid()
      case InternetResource(_) => true
      case ArticlesCollection(c) => c.Valid()
      case JournalArticle(j) => j.Valid()
      case Newspaper(n) => n.Valid()
    }
  }

  /** pydantic's rejection of a record: the names of the fields whose constraint failed, in declaration order. */
  datatype ValidationError = ValidationError(fields: seq<string>)

  /** The error entry for a field declared `Field(..., gt=0)`. */
  function GreaterThanZero(field: string, value: int): seq<string> {
    if value > 0 then [] else [field]
  }

  /** `BookModel(...)`: rejects a non-positive year or page count, reporting every failing field. */
  function NewBookModel(
    authors: string, title: string, edition: Option<string>, city: string,
    publishingHouse: string, year: int, pages: int): (r: Result<BookModel, ValidationError>)
    ensures r.Ok? <==> year > 0 && pages > 0
    ensures r.Ok? ==> r.value.Valid()
    ensures r.Ok? ==> r.value == BookModel(authors, title, edition, city, publishingHouse, year, pages)
    ensures r.Err? ==> ("year" in r.error.fields <==> year <= 0) && ("pages" in r.error.fields <==> pages <= 0)
    ensures r.Err? ==> forall f :: f in r.error.fields ==> f == "year" || f == "pages"
  {
    var failed := GreaterThanZero("year", year) + GreaterThanZero("pages", pages);
    if failed == [] then Ok(BookModel(authors, title, edition, city, publishingHouse, year, pages))
    else Err(ValidationError(failed))
  }

  /** `ArticlesCollectionModel(...)`: rejects a non-positive year; `pages` is accepted as any text. */
  function NewArticlesCollectionModel(
    authors: string, articleTitle: string, collectionTitle: string, city: string,
    publishingHouse: string, year: int, pages: string): (r: Result<ArticlesCollectionModel, ValidationError>)
    ensures r.Ok? <==> year > 0
    ensures r.Ok? ==> r.value.Valid()
    ensures r.Ok? ==> r.value == ArticlesCollectionModel(authors, articleTitle, collectionTitle, city, publishingHouse, year, pages)
    ensures r.Err? ==> r.error.fields == ["year"]
  {
    var failed := GreaterThanZero("year", year);
    if failed == [] then Ok(ArticlesCollectionModel(authors, articleTitle, collectionTitle, city, publishingHouse, year, pages))
    else Err(ValidationError(failed))
  }

  /** `JournalArticleModel(...)`: rejects a non-positive year or issue number. */
  function NewJournalArticleModel(
    authors: string, articleTitle: string, journalTitle: string,
    year: int, issue: int, pages: string): (r: Result<JournalArticleModel, ValidationError>)
    ensures r.Ok? <==> year > 0 && issue > 0
    ensures r.Ok? ==> r.value.Valid()
    ensures r.Ok? ==> r.value == JournalArticleModel(authors, articleTitle, journalTitle, year, issue, pages)
    ensures r.Err? ==> ("year" in r.error.fields <==> year <= 0) && ("issue" in r.error.fields <==> issue <= 0)
    ensures r.Err? ==> forall f :: f in r.error.fields ==> f == "year" || f == "issue"
  {
    var failed := GreaterThanZero("year", year) + GreaterThanZero("issue", issue);
    if failed == [] then Ok(JournalArticleModel(authors, articleTitle, journalTitle, year, issue, pages))
    else Err(ValidationError(failed))
  }

  /** `NewspaperModel(...)`: rejects a non-positive year or issue number; `date` is any text. */
  function NewNewspaperModel(
    authors: string, articleTitle: string, newspaperTitle: string,
    year: int, date: string, issue: int): (r: Result<NewspaperModel, ValidationError>)
    ensures r.Ok? <==> year > 0 && issue > 0
    ensures r.Ok? ==> r.value.Valid()
    ensures r.Ok? ==> r.value == NewspaperModel(authors, articleTitle, newspaperTitle, year, date, issue)
    ensures r.Err? ==> ("year" in r.error.fields <==> year <= 0) && ("issue" in r.error.fields <==> issue <= 0)
    ensures r.Err? ==> forall f :: f in r.error.fields ==> f == "year" || f == "issue"
  {
    var failed := GreaterThanZero("year", year) + GreaterThanZero("issue", issue);
    if failed == [] then Ok(NewspaperModel(authors, articleTitle, newspaperTitle, year, date, issue))
    else Err(ValidationError(failed))
  }

  /**
   * A `BookModel` object. Records are otherwise never changed after construction;
   * `trim_authors_dots` is the one operation that rewrites a field in place.
   */
  class BookInstance {
    var authors: string
    var title: string
    var edition: Option<string>
    var city: string
    var publishingHouse: string
    var year: int
    var pages: int

    /** The record the object currently holds. */
    function Value(): BookModel
      reads this
    {
      BookModel(authors, title, edition, city, publishingHouse, year, pages)
    }

    constructor (m: BookModel)
      ensures Value() == m
    {
      authors, title, edition, city := m.authors, m.title, m.edition, m.city;
      publishingHouse, year, pages := m.publishingHouse, m.year, m.pages;
    }

    /** `trim_authors_dots`: drops every trailing '.' from `authors` and touches nothing else. */
    method TrimAuthorsDots()
      modifies this`authors
      ensures authors == RStrip(old(authors), '.')
      ensures authors == [] || authors[|authors| - 1] != '.'
      ensures authors == old(authors)[..|authors|]
      ensures forall i :: |authors| <= i < |old(authors)| ==> old(authors)[i] == '.'
      ensures Value() == old(Value()).(authors := authors)
      ensures old(Value()).Valid() ==> Value().Valid()
    {
      authors := RStrip(authors, '.');
    }
  }
}
