/**
 * The GOST R 7.0.5-2008 style (a loose rendering of it): one template per
 * record kind, the formatter table, `SORT_ORDER`, and the list formatter that
 * renders every record and sorts by (rank of the kind, formatted text).
 */
module Gost {
  import opened Wrappers
  import opened Text
  import opened Models
  import opened Templates
  import opened Citations
  import opened Sorting

  /** The formatter classes of the style. */
  datatype GostFormatter = GOSTBook | GOSTInternetResource | GOSTCollectionArticle | GOSTJournalArticle | GOSTNewspaper

  /** `SORT_ORDER`: books, then journal articles, collection articles, newspapers, internet resources. */
  function SortOrder(f: GostFormatter): nat {
    match f
    case GOSTBook => 0
    case GOSTJournalArticle => 1
    case GOSTCollectionArticle => 2
    case GOSTNewspaper => 3
    case GOSTInternetResource => 4
  }

  /** The model class each formatter's `data` field is declared with. */
  function DataKind(f: GostFormatter): Kind {
    match f
    case GOSTBook => BookKind
    case GOSTInternetResource => InternetResourceKind
    case GOSTCollectionArticle => ArticlesCollectionKind
    case GOSTJournalArticle => JournalArticleKind
    case GOSTNewspaper => NewspaperKind
  }

  // ----- GOSTBook -----

  /** "$authors $title. – $edition$city: $publishing_house, $year. – $pages с." */
  const BookTemplate: Template := [
    Placeholder("authors"), Text(" "), Placeholder("title"), Text(". – "), Placeholder("edition"),
    Placeholder("city"), Text(": "), Placeholder("publishing_house"), Text(", "),
    Placeholder("year"), Text(". – "), Placeholder("pages"), Text(" с.")]

  /** `get_edition`: "<edition> изд. – " when the edition is set and not empty, otherwise nothing. */
  function GetEdition(b: BookModel): string {
    if b.edition.Some? && b.edition.value != "" then b.edition.value + " изд. – " else ""
  }

  /** The keywords `GOSTBook.substitute` passes; integers go through `str`. */
  function BookKwargs(b: BookModel): map<string, string> {
    map[
      "authors" := b.authors,
      "title" := b.title,
      "edition" := GetEdition(b),
      "city" := b.city,
      "publishing_house" := b.publishingHouse,
      "year" := IntToString(b.year),
      "pages" := IntToString(b.pages)]
  }

  /** `GOSTBook(b).formatted`. */
  function GOSTBookFormatted(b: BookModel): Result<string, string> {
    Substitute(BookTemplate, BookKwargs(b))
  }

  /** The first 4 pieces of the template, filled with the same values. */
  lemma BookTemplatePrefix4(authors: string, title: string, edition: string, city: string, publishingHouse: string, year: string, pages: string)
    ensures Substitute(BookTemplate[..4], map["authors" := authors, "title" := title, "edition" := edition, "city" := city, "publishing_house" := publishingHouse, "year" := year, "pages" := pages])
      == Ok(authors + " " + title + ". – ")
  {
    var kwargs := map["authors" := authors, "title" := title, "edition" := edition, "city" := city, "publishing_house" := publishingHouse, "year" := year, "pages" := pages];
    assert BookTemplate[..1][..0] == [];
    assert "" + authors == authors;
    assert Substitute(BookTemplate[..1], kwargs) == Ok(authors);
    assert BookTemplate[..2][..1] == BookTemplate[..1];
    assert Substitute(BookTemplate[..2], kwargs) == Ok(authors + " ");
    assert BookTemplate[..3][..2] == BookTemplate[..2];
    assert Substitute(BookTemplate[..3], kwargs) == Ok(authors + " " + title);
    assert BookTemplate[..4][..3] == BookTemplate[..3];
    assert Substitute(BookTemplate[..4], kwargs) == Ok(authors + " " + title + ". – ");
  }

  /** The first 8 pieces of the template, filled with the same values. */
  lemma BookTemplatePrefix8(authors: string, title: string, edition: string, city: string, publishingHouse: string, year: string, pages: string)
    ensures Substitute(BookTemplate[..8], map["authors" := authors, "title" := title, "edition" := edition, "city" := city, "publishing_house" := publishingHouse, "year" := year, "pages" := pages])
      == Ok(authors + " " + title + ". – " + edition + city + ": " + publishingHouse)
  {
    var kwargs := map["authors" := authors, "title" := title, "edition" := edition, "city" := city, "publishing_house" := publishingHouse, "year" := year, "pages" := pages];
    BookTemplatePrefix4(authors, title, edition, city, publishingHouse, year, pages);
    assert BookTemplate[..5][..4] == BookTemplate[..4];
    assert Substitute(BookTemplate[..5], kwargs) == Ok(authors + " " + title + ". – " + edition);
    assert BookTemplate[..6][..5] == BookTemplate[..5];
    assert Substitute(BookTemplate[..6], kwargs) == Ok(authors + " " + title + ". – " + edition + city);
    assert BookTemplate[..7][..6] == BookTemplate[..6];
    assert Substitute(BookTemplate[..7], kwargs) == Ok(authors + " " + title + ". – " + edition + city + ": ");
    assert BookTemplate[..8][..7] == BookTemplate[..7];
    assert Substitute(BookTemplate[..8], kwargs) == Ok(authors + " " + title + ". – " + edition + city + ": " + publishingHouse);
  }

  /** The book template, filled with any seven values, is these pieces in this order. */
  lemma BookTemplateText(authors: string, title: string, edition: string, city: string, publishingHouse: string, year: string, pages: string)
    ensures Substitute(BookTemplate, map["authors" := authors, "title" := title, "edition" := edition, "city" := city, "publishing_house" := publishingHouse, "year" := year, "pages" := pages])
      == Ok(authors + " " + title + ". – " + edition + city + ": " + publishingHouse + ", " + year + ". – " + pages + " с.")
  {
    var kwargs := map["authors" := authors, "title" := title, "edition" := edition, "city" := city, "publishing_house" := publishingHouse, "year" := year, "pages" := pages];
    BookTemplatePrefix8(authors, title, edition, city, publishingHouse, year, pages);
    assert BookTemplate[..9][..8] == BookTemplate[..8];
    assert Substitute(BookTemplate[..9], kwargs) == Ok(authors + " " + title + ". – " + edition + city + ": " + publishingHouse + ", ");
    assert BookTemplate[..10][..9] == BookTemplate[..9];
    assert Substitute(BookTemplate[..10], kwargs) == Ok(authors + " " + title + ". – " + edition + city + ": " + publishingHouse + ", " + year);
    assert BookTemplate[..11][..10] == BookTemplate[..10];
    assert Substitute(BookTemplate[..11], kwargs) == Ok(authors + " " + title + ". – " + edition + city + ": " + publishingHouse + ", " + year + ". – ");
    assert BookTemplate[..12][..11] == BookTemplate[..11];
    assert Substitute(BookTemplate[..12], kwargs) == Ok(authors + " " + title + ". – " + edition + city + ": " + publishingHouse + ", " + year + ". – " + pages);
    assert BookTemplate[..13][..12] == BookTemplate[..12];
    assert Substitute(BookTemplate[..13], kwargs) == Ok(authors + " " + title + ". – " + edition + city + ": " + publishingHouse + ", " + year + ". – " + pages + " с.");
    assert BookTemplate[..13] == BookTemplate;
  }

  /** A book citation: authors, title, edition clause, city, publisher, year and page count, in that order. */
  lemma GOSTBookLayout(b: BookModel)
    ensures GOSTBookFormatted(b) == Ok(b.authors + " " + b.title + ". – " + GetEdition(b) + b.city + ": " + b.publishingHouse + ", " + IntToString(b.year) + ". – " + IntToString(b.pages) + " с.")
  {
    BookTemplateText(b.authors, b.title, GetEdition(b), b.city, b.publishingHouse, IntToString(b.year), IntToString(b.pages));
  }

  /** With an edition, the clause "<edition> изд. – " stands between the title and the city. */
  lemma GOSTBookWithEdition(b: BookModel)
    requires b.edition.Some? && b.edition.value != ""
    ensures GOSTBookFormatted(b) == Ok(b.authors + " " + b.title + ". – " + b.edition.value + " изд. – " + b.city
      + ": " + b.publishingHouse + ", " + IntToString(b.year) + ". – " + IntToString(b.pages) + " с.")
  {
    GOSTBookLayout(b);
    var head := b.authors + " " + b.title + ". – ";
    assert head + GetEdition(b) == head + b.edition.value + " изд. – ";
  }

  /** Without an edition (absent or empty), the title's separator runs straight into the city: nothing dangles. */
  lemma GOSTBookWithoutEdition(b: BookModel)
    requires b.edition.None? || b.edition.value == ""
    ensures GOSTBookFormatted(b) == Ok(b.authors + " " + b.title + ". – " + b.city
      + ": " + b.publishingHouse + ", " + IntToString(b.year) + ". – " + IntToString(b.pages) + " с.")
  {
    GOSTBookLayout(b);
    var head := b.authors + " " + b.title + ". – ";
    assert head + GetEdition(b) == head;
  }

  // ----- GOSTInternetResource -----

  /** "$article // $website URL: $link (дата обращения: $access_date)." */
  const InternetResourceTemplate: Template := [
    Placeholder("article"), Text(" // "), Placeholder("website"), Text(" URL: "),
    Placeholder("link"), Text(" (дата обращения: "), Placeholder("access_date"), Text(").")]

  function InternetResourceKwargs(w: InternetResourceModel): map<string, string> {
    map[
      "article" := w.article,
      "website" := w.website,
      "link" := w.link,
      "access_date" := w.accessDate]
  }

  /** `GOSTInternetResource(w).formatted`. */
  function GOSTInternetResourceFormatted(w: InternetResourceModel): Result<string, string> {
    Substitute(InternetResourceTemplate, InternetResourceKwargs(w))
  }

  /** The first 4 pieces of the template, filled with the same values. */
  lemma InternetResourceTemplatePrefix4(article: string, website: string, link: string, accessDate: string)
    ensures Substitute(InternetResourceTemplate[..4], map["article" := article, "website" := website, "link" := link, "access_date" := accessDate])
      == Ok(article + " // " + website + " URL: ")
  {
    var kwargs := map["article" := article, "website" := website, "link" := link, "access_date" := accessDate];
    assert InternetResourceTemplate[..1][..0] == [];
    assert "" + article == article;
    assert Substitute(InternetResourceTemplate[..1], kwargs) == Ok(article);
    assert InternetResourceTemplate[..2][..1] == InternetResourceTemplate[..1];
    assert Substitute(InternetResourceTemplate[..2], kwargs) == Ok(article + " // ");
    assert InternetResourceTemplate[..3][..2] == InternetResourceTemplate[..2];
    assert Substitute(InternetResourceTemplate[..3], kwargs) == Ok(article + " // " + website);
    assert InternetResourceTemplate[..4][..3] == InternetResourceTemplate[..3];
    assert Substitute(InternetResourceTemplate[..4], kwargs) == Ok(article + " // " + website + " URL: ");
  }

  /** The internet resource template, filled with any four values, is these pieces in this order. */
  lemma InternetResourceTemplateText(article: string, website: string, link: string, accessDate: string)
    ensures Substitute(InternetResourceTemplate, map["article" := article, "website" := website, "link" := link, "access_date" := accessDate])
      == Ok(article + " // " + website + " URL: " + link + " (дата обращения: " + accessDate + ").")
  {
    var kwargs := map["article" := article, "website" := website, "link" := link, "access_date" := accessDate];
    InternetResourceTemplatePrefix4(article, website, link, accessDate);
    assert InternetResourceTemplate[..5][..4] == InternetResourceTemplate[..4];
    assert Substitute(InternetResourceTemplate[..5], kwargs) == Ok(article + " // " + website + " URL: " + link);
    assert InternetResourceTemplate[..6][..5] == InternetResourceTemplate[..5];
    assert Substitute(InternetResourceTemplate[..6], kwargs) == Ok(article + " // " + website + " URL: " + link + " (дата обращения: ");
    assert InternetResourceTemplate[..7][..6] == InternetResourceTemplate[..6];
    assert Substitute(InternetResourceTemplate[..7], kwargs) == Ok(article + " // " + website + " URL: " + link + " (дата обращения: " + accessDate);
    assert InternetResourceTemplate[..8][..7] == InternetResourceTemplate[..7];
    assert Substitute(InternetResourceTemplate[..8], kwargs) == Ok(article + " // " + website + " URL: " + link + " (дата обращения: " + accessDate + ").");
    assert InternetResourceTemplate[..8] == InternetResourceTemplate;
  }

  /** A web citation: article, site, URL and access date, each copied as given. */
  lemma GOSTInternetResourceLayout(w: InternetResourceModel)
    ensures GOSTInternetResourceFormatted(w) == Ok(w.article + " // " + w.website + " URL: " + w.link + " (дата обращения: " + w.accessDate + ").")
  {
    InternetResourceTemplateText(w.article, w.website, w.link, w.accessDate);
  }

  // ----- GOSTCollectionArticle -----

  /** "$authors $article_title // $collection_title. – $city: $publishing_house, $year. – С. $pages." */
  const CollectionArticleTemplate: Template := [
    Placeholder("authors"), Text(" "), Placeholder("article_title"), Text(" // "),
    Placeholder("collection_title"), Text(". – "), Placeholder("city"), Text(": "),
    Placeholder("publishing_house"), Text(", "), Placeholder("year"), Text(". – С. "),
    Placeholder("pages"), Text(".")]

  function CollectionArticleKwargs(c: ArticlesCollectionModel): map<string, string> {
    map[
      "authors" := c.authors,
      "article_title" := c.articleTitle,
      "collection_title" := c.collectionTitle,
      "city" := c.city,
      "publishing_house" := c.publishingHouse,
      "year" := IntToString(c.year),
      "pages" := c.pages]
  }

  /** `GOSTCollectionArticle(c).formatted`. */
  function GOSTCollectionArticleFormatted(c: ArticlesCollectionModel): Result<string, string> {
    Substitute(CollectionArticleTemplate, CollectionArticleKwargs(c))
  }

  /** The first 4 pieces of the template, filled with the same values. */
  lemma CollectionArticleTemplatePrefix4(authors: string, articleTitle: string, collectionTitle: string, city: string, publishingHouse: string, year: string, pages: string)
    ensures Substitute(CollectionArticleTemplate[..4], map["authors" := authors, "article_title" := articleTitle, "collection_title" := collectionTitle, "city" := city, "publishing_house" := publishingHouse, "year" := year, "pages" := pages])
      == Ok(authors + " " + articleTitle + " // ")
  {
    var kwargs := map["authors" := authors, "article_title" := articleTitle, "collection_title" := collectionTitle, "city" := city, "publishing_house" := publishingHouse, "year" := year, "pages" := pages];
    assert CollectionArticleTemplate[..1][..0] == [];
    assert "" + authors == authors;
    assert Substitute(CollectionArticleTemplate[..1], kwargs) == Ok(authors);
    assert CollectionArticleTemplate[..2][..1] == CollectionArticleTemplate[..1];
    assert Substitute(CollectionArticleTemplate[..2], kwargs) == Ok(authors + " ");
    assert CollectionArticleTemplate[..3][..2] == CollectionArticleTemplate[..2];
    assert Substitute(CollectionArticleTemplate[..3], kwargs) == Ok(authors + " " + articleTitle);
    assert CollectionArticleTemplate[..4][..3] == CollectionArticleTemplate[..3];
    assert Substitute(CollectionArticleTemplate[..4], kwargs) == Ok(authors + " " + articleTitle + " // ");
  }

  /** The first 8 pieces of the template, filled with the same values. */
  lemma CollectionArticleTemplatePrefix8(authors: string, articleTitle: string, collectionTitle: string, city: string, publishingHouse: string, year: string, pages: string)
    ensures Substitute(CollectionArticleTemplate[..8], map["authors" := authors, "article_title" := articleTitle, "collection_title" := collectionTitle, "city" := city, "publishing_house" := publishingHouse, "year" := year, "pages" := pages])
      == Ok(authors + " " + articleTitle + " // " + collectionTitle + ". – " + city + ": ")
  {
    var kwargs := map["authors" := authors, "article_title" := articleTitle, "collection_title" := collectionTitle, "city" := city, "publishing_house" := publishingHouse, "year" := year, "pages" := pages];
    CollectionArticleTemplatePrefix4(authors, articleTitle, collectionTitle, city, publishingHouse, year, pages);
    assert CollectionArticleTemplate[..5][..4] == CollectionArticleTemplate[..4];
    assert Substitute(CollectionArticleTemplate[..5], kwargs) == Ok(authors + " " + articleTitle + " // " + collectionTitle);
    assert CollectionArticleTemplate[..6][..5] == CollectionArticleTemplate[..5];
    assert Substitute(CollectionArticleTemplate[..6], kwargs) == Ok(authors + " " + articleTitle + " // " + collectionTitle + ". – ");
    assert CollectionArticleTemplate[..7][..6] == CollectionArticleTemplate[..6];
    assert Substitute(CollectionArticleTemplate[..7], kwargs) == Ok(authors + " " + articleTitle + " // " + collectionTitle + ". – " + city);
    assert CollectionArticleTemplate[..8][..7] == CollectionArticleTemplate[..7];
    assert Substitute(CollectionArticleTemplate[..8], kwargs) == Ok(authors + " " + articleTitle + " // " + collectionTitle + ". – " + city + ": ");
  }

  /** The first 12 pieces of the template, filled with the same values. */
  lemma CollectionArticleTemplatePrefix12(authors: string, articleTitle: string, collectionTitle: string, city: string, publishingHouse: string, year: string, pages: string)
    ensures Substitute(CollectionArticleTemplate[..12], map["authors" := authors, "article_title" := articleTitle, "collection_title" := collectionTitle, "city" := city, "publishing_house" := publishingHouse, "year" := year, "pages" := pages])
      == Ok(authors + " " + articleTitle + " // " + collectionTitle + ". – " + city + ": " + publishingHouse + ", " + year + ". – С. ")
  {
    var kwargs := map["authors" := authors, "article_title" := articleTitle, "collection_title" := collectionTitle, "city" := city, "publishing_house" := publishingHouse, "year" := year, "pages" := pages];
    CollectionArticleTemplatePrefix8(authors, articleTitle, collectionTitle, city, publishingHouse, year, pages);
    assert CollectionArticleTemplate[..9][..8] == CollectionArticleTemplate[..8];
    assert Substitute(CollectionArticleTemplate[..9], kwargs) == Ok(authors + " " + articleTitle + " // " + collectionTitle + ". – " + city + ": " + publishingHouse);
    assert CollectionArticleTemplate[..10][..9] == CollectionArticleTemplate[..9];
    assert Substitute(CollectionArticleTemplate[..10], kwargs) == Ok(authors + " " + articleTitle + " // " + collectionTitle + ". – " + city + ": " + publishingHouse + ", ");
    assert CollectionArticleTemplate[..11][..10] == CollectionArticleTemplate[..10];
    assert Substitute(CollectionArticleTemplate[..11], kwargs) == Ok(authors + " " + articleTitle + " // " + collectionTitle + ". – " + city + ": " + publishingHouse + ", " + year);
    assert CollectionArticleTemplate[..12][..11] == CollectionArticleTemplate[..11];
    assert Substitute(CollectionArticleTemplate[..12], kwargs) == Ok(authors + " " + articleTitle + " // " + collectionTitle + ". – " + city + ": " + publishingHouse + ", " + year + ". – С. ");
  }

  /** The collection article template, filled with any seven values, is these pieces in this order. */
  lemma CollectionArticleTemplateText(authors: string, articleTitle: string, collectionTitle: string, city: string, publishingHouse: string, year: string, pages: string)
    ensures Substitute(CollectionArticleTemplate, map["authors" := authors, "article_title" := articleTitle, "collection_title" := collectionTitle, "city" := city, "publishing_house" := publishingHouse, "year" := year, "pages" := pages])
      == Ok(authors + " " + articleTitle + " // " + collectionTitle + ". – " + city + ": " + publishingHouse + ", " + year + ". – С. " + pages + ".")
  {
    var kwargs := map["authors" := authors, "article_title" := articleTitle, "collection_title" := collectionTitle, "city" := city, "publishing_house" := publishingHouse, "year" := year, "pages" := pages];
    CollectionArticleTemplatePrefix12(authors, articleTitle, collectionTitle, city, publishingHouse, year, pages);
    assert CollectionArticleTemplate[..13][..12] == CollectionArticleTemplate[..12];
    assert Substitute(CollectionArticleTemplate[..13], kwargs) == Ok(authors + " " + articleTitle + " // " + collectionTitle + ". – " + city + ": " + publishingHouse + ", " + year + ". – С. " + pages);
    assert CollectionArticleTemplate[..14][..13] == CollectionArticleTemplate[..13];
    assert Substitute(CollectionArticleTemplate[..14], kwargs) == Ok(authors + " " + articleTitle + " // " + collectionTitle + ". – " + city + ": " + publishingHouse + ", " + year + ". – С. " + pages + ".");
    assert CollectionArticleTemplate[..14] == CollectionArticleTemplate;
  }

  /** A collection article: authors, titles, city, publisher, year, then the page range as written. */
  lemma GOSTCollectionArticleLayout(c: ArticlesCollectionModel)
    ensures GOSTCollectionArticleFormatted(c) == Ok(c.authors + " " + c.articleTitle + " // " + c.collectionTitle + ". – " + c.city + ": " + c.publishingHouse + ", " + IntToString(c.year) + ". – С. " + c.pages + ".")
  {
    CollectionArticleTemplateText(c.authors, c.articleTitle, c.collectionTitle, c.city, c.publishingHouse, IntToString(c.year), c.pages);
  }

  // ----- GOSTJournalArticle -----

  /** "$authors $article_title // $journal_title. – $year. – № $issue. – С. $pages." */
  const JournalArticleTemplate: Template := [
    Placeholder("authors"), Text(" "), Placeholder("article_title"), Text(" // "),
    Placeholder("journal_title"), Text(". – "), Placeholder("year"), Text(". – № "),
    Placeholder("issue"), Text(". – С. "), Placeholder("pages"), Text(".")]

  function JournalArticleKwargs(j: JournalArticleModel): map<string, string> {
    map[
      "authors" := j.authors,
      "article_title" := j.articleTitle,
      "journal_title" := j.journalTitle,
      "year" := IntToString(j.year),
      "issue" := IntToString(j.issue),
      "pages" := j.pages]
  }

  /** `GOSTJournalArticle(j).formatted`. */
  function GOSTJournalArticleFormatted(j: JournalArticleModel): Result<string, string> {
    Substitute(JournalArticleTemplate, JournalArticleKwargs(j))
  }

  /** The first 4 pieces of the template, filled with the same values. */
  lemma JournalArticleTemplatePrefix4(authors: string, articleTitle: string, journalTitle: string, year: string, issue: string, pages: string)
    ensures Substitute(JournalArticleTemplate[..4], map["authors" := authors, "article_title" := articleTitle, "journal_title" := journalTitle, "year" := year, "issue" := issue, "pages" := pages])
      == Ok(authors + " " + articleTitle + " // ")
  {
    var kwargs := map["authors" := authors, "article_title" := articleTitle, "journal_title" := journalTitle, "year" := year, "issue" := issue, "pages" := pages];
    assert JournalArticleTemplate[..1][..0] == [];
    assert "" + authors == authors;
    assert Substitute(JournalArticleTemplate[..1], kwargs) == Ok(authors);
    assert JournalArticleTemplate[..2][..1] == JournalArticleTemplate[..1];
    assert Substitute(JournalArticleTemplate[..2], kwargs) == Ok(authors + " ");
    assert JournalArticleTemplate[..3][..2] == JournalArticleTemplate[..2];
    assert Substitute(JournalArticleTemplate[..3], kwargs) == Ok(authors + " " + articleTitle);
    assert JournalArticleTemplate[..4][..3] == JournalArticleTemplate[..3];
    assert Substitute(JournalArticleTemplate[..4], kwargs) == Ok(authors + " " + articleTitle + " // ");
  }

  /** The first 8 pieces of the template, filled with the same values. */
  lemma JournalArticleTemplatePrefix8(authors: string, articleTitle: string, journalTitle: string, year: string, issue: string, pages: string)
    ensures Substitute(JournalArticleTemplate[..8], map["authors" := authors, "article_title" := articleTitle, "journal_title" := journalTitle, "year" := year, "issue" := issue, "pages" := pages])
      == Ok(authors + " " + articleTitle + " // " + journalTitle + ". – " + year + ". – № ")
  {
    var kwargs := map["authors" := authors, "article_title" := articleTitle, "journal_title" := journalTitle, "year" := year, "issue" := issue, "pages" := pages];
    JournalArticleTemplatePrefix4(authors, articleTitle, journalTitle, year, issue, pages);
    assert JournalArticleTemplate[..5][..4] == JournalArticleTemplate[..4];
    assert Substitute(JournalArticleTemplate[..5], kwargs) == Ok(authors + " " + articleTitle + " // " + journalTitle);
    assert JournalArticleTemplate[..6][..5] == JournalArticleTemplate[..5];
    assert Substitute(JournalArticleTemplate[..6], kwargs) == Ok(authors + " " + articleTitle + " // " + journalTitle + ". – ");
    assert JournalArticleTemplate[..7][..6] == JournalArticleTemplate[..6];
    assert Substitute(JournalArticleTemplate[..7], kwargs) == Ok(authors + " " + articleTitle + " // " + journalTitle + ". – " + year);
    assert JournalArticleTemplate[..8][..7] == JournalArticleTemplate[..7];
    assert Substitute(JournalArticleTemplate[..8], kwargs) == Ok(authors + " " + articleTitle + " // " + journalTitle + ". – " + year + ". – № ");
  }

  /** The journal article template, filled with any six values, is these pieces in this order. */
  lemma JournalArticleTemplateText(authors: string, articleTitle: string, journalTitle: string, year: string, issue: string, pages: string)
    ensures Substitute(JournalArticleTemplate, map["authors" := authors, "article_title" := articleTitle, "journal_title" := journalTitle, "year" := year, "issue" := issue, "pages" := pages])
      == Ok(authors + " " + articleTitle + " // " + journalTitle + ". – " + year + ". – № " + issue + ". – С. " + pages + ".")
  {
    var kwargs := map["authors" := authors, "article_title" := articleTitle, "journal_title" := journalTitle, "year" := year, "issue" := issue, "pages" := pages];
    JournalArticleTemplatePrefix8(authors, articleTitle, journalTitle, year, issue, pages);
    assert JournalArticleTemplate[..9][..8] == JournalArticleTemplate[..8];
    assert Substitute(JournalArticleTemplate[..9], kwargs) == Ok(authors + " " + articleTitle + " // " + journalTitle + ". – " + year + ". – № " + issue);
    assert JournalArticleTemplate[..10][..9] == JournalArticleTemplate[..9];
    assert Substitute(JournalArticleTemplate[..10], kwargs) == Ok(authors + " " + articleTitle + " // " + journalTitle + ". – " + year + ". – № " + issue + ". – С. ");
    assert JournalArticleTemplate[..11][..10] == JournalArticleTemplate[..10];
    assert Substitute(JournalArticleTemplate[..11], kwargs) == Ok(authors + " " + articleTitle + " // " + journalTitle + ". – " + year + ". – № " + issue + ". – С. " + pages);
    assert JournalArticleTemplate[..12][..11] == JournalArticleTemplate[..11];
    assert Substitute(JournalArticleTemplate[..12], kwargs) == Ok(authors + " " + articleTitle + " // " + journalTitle + ". – " + year + ". – № " + issue + ". – С. " + pages + ".");
    assert JournalArticleTemplate[..12] == JournalArticleTemplate;
  }

  /** A journal article: authors, titles, year, issue number, then the page range as written. */
  lemma GOSTJournalArticleLayout(j: JournalArticleModel)
    ensures GOSTJournalArticleFormatted(j) == Ok(j.authors + " " + j.articleTitle + " // " + j.journalTitle + ". – " + IntToString(j.year) + ". – № " + IntToString(j.issue) + ". – С. " + j.pages + ".")
  {
    JournalArticleTemplateText(j.authors, j.articleTitle, j.journalTitle, IntToString(j.year), IntToString(j.issue), j.pages);
  }

  // ----- GOSTNewspaper -----

  /** "$authors $article_title // $newspaper_title. – $year. – № $issue. – $date." */
  const NewspaperTemplate: Template := [
    Placeholder("authors"), Text(" "), Placeholder("article_title"), Text(" // "),
    Placeholder("newspaper_title"), Text(". – "), Placeholder("year"), Text(". – № "),
    Placeholder("issue"), Text(". – "), Placeholder("date"), Text(".")]

  function NewspaperKwargs(n: NewspaperModel): map<string, string> {
    map[
      "authors" := n.authors,
      "article_title" := n.articleTitle,
      "newspaper_title" := n.newspaperTitle,
      "year" := IntToString(n.year),
      "issue" := IntToString(n.issue),
      "date" := n.date]
  }

  /** `GOSTNewspaper(n).formatted`. */
  function GOSTNewspaperFormatted(n: NewspaperModel): Result<string, string> {
    Substitute(NewspaperTemplate, NewspaperKwargs(n))
  }

  /** The first 4 pieces of the template, filled with the same values. */
  lemma NewspaperTemplatePrefix4(authors: string, articleTitle: string, newspaperTitle: string, year: string, issue: string, date: string)
    ensures Substitute(NewspaperTemplate[..4], map["authors" := authors, "article_title" := articleTitle, "newspaper_title" := newspaperTitle, "year" := year, "issue" := issue, "date" := date])
      == Ok(authors + " " + articleTitle + " // ")
  {
    var kwargs := map["authors" := authors, "article_title" := articleTitle, "newspaper_title" := newspaperTitle, "year" := year, "issue" := issue, "date" := date];
    assert NewspaperTemplate[..1][..0] == [];
    assert "" + authors == authors;
    assert Substitute(NewspaperTemplate[..1], kwargs) == Ok(authors);
    assert NewspaperTemplate[..2][..1] == NewspaperTemplate[..1];
    assert Substitute(NewspaperTemplate[..2], kwargs) == Ok(authors + " ");
    assert NewspaperTemplate[..3][..2] == NewspaperTemplate[..2];
    assert Substitute(NewspaperTemplate[..3], kwargs) == Ok(authors + " " + articleTitle);
    assert NewspaperTemplate[..4][..3] == NewspaperTemplate[..3];
    assert Substitute(NewspaperTemplate[..4], kwargs) == Ok(authors + " " + articleTitle + " // ");
  }

  /** The first 8 pieces of the template, filled with the same values. */
  lemma NewspaperTemplatePrefix8(authors: string, articleTitle: string, newspaperTitle: string, year: string, issue: string, date: string)
    ensures Substitute(NewspaperTemplate[..8], map["authors" := authors, "article_title" := articleTitle, "newspaper_title" := newspaperTitle, "year" := year, "issue" := issue, "date" := date])
      == Ok(authors + " " + articleTitle + " // " + newspaperTitle + ". – " + year + ". – № ")
  {
    var kwargs := map["authors" := authors, "article_title" := articleTitle, "newspaper_title" := newspaperTitle, "year" := year, "issue" := issue, "date" := date];
    NewspaperTemplatePrefix4(authors, articleTitle, newspaperTitle, year, issue, date);
    assert NewspaperTemplate[..5][..4] == NewspaperTemplate[..4];
    assert Substitute(NewspaperTemplate[..5], kwargs) == Ok(authors + " " + articleTitle + " // " + newspaperTitle);
    assert NewspaperTemplate[..6][..5] == NewspaperTemplate[..5];
    assert Substitute(NewspaperTemplate[..6], kwargs) == Ok(authors + " " + articleTitle + " // " + newspaperTitle + ". – ");
    assert NewspaperTemplate[..7][..6] == NewspaperTemplate[..6];
    assert Substitute(NewspaperTemplate[..7], kwargs) == Ok(authors + " " + articleTitle + " // " + newspaperTitle + ". – " + year);
    assert NewspaperTemplate[..8][..7] == NewspaperTemplate[..7];
    assert Substitute(NewspaperTemplate[..8], kwargs) == Ok(authors + " " + articleTitle + " // " + newspaperTitle + ". – " + year + ". – № ");
  }

  /** The newspaper template, filled with any six values, is these pieces in this order. */
  lemma NewspaperTemplateText(authors: string, articleTitle: string, newspaperTitle: string, year: string, issue: string, date: string)
    ensures Substitute(NewspaperTemplate, map["authors" := authors, "article_title" := articleTitle, "newspaper_title" := newspaperTitle, "year" := year, "issue" := issue, "date" := date])
      == Ok(authors + " " + articleTitle + " // " + newspaperTitle + ". – " + year + ". – № " + issue + ". – " + date + ".")
  {
    var kwargs := map["authors" := authors, "article_title" := articleTitle, "newspaper_title" := newspaperTitle, "year" := year, "issue" := issue, "date" := date];
    NewspaperTemplatePrefix8(authors, articleTitle, newspaperTitle, year, issue, date);
    assert NewspaperTemplate[..9][..8] == NewspaperTemplate[..8];
    assert Substitute(NewspaperTemplate[..9], kwargs) == Ok(authors + " " + articleTitle + " // " + newspaperTitle + ". – " + year + ". – № " + issue);
    assert NewspaperTemplate[..10][..9] == NewspaperTemplate[..9];
    assert Substitute(NewspaperTemplate[..10], kwargs) == Ok(authors + " " + articleTitle + " // " + newspaperTitle + ". – " + year + ". – № " + issue + ". – ");
    assert NewspaperTemplate[..11][..10] == NewspaperTemplate[..10];
    assert Substitute(NewspaperTemplate[..11], kwargs) == Ok(authors + " " + articleTitle + " // " + newspaperTitle + ". – " + year + ". – № " + issue + ". – " + date);
    assert NewspaperTemplate[..12][..11] == NewspaperTemplate[..11];
    assert Substitute(NewspaperTemplate[..12], kwargs) == Ok(authors + " " + articleTitle + " // " + newspaperTitle + ". – " + year + ". – № " + issue + ". – " + date + ".");
    assert NewspaperTemplate[..12] == NewspaperTemplate;
  }

  /** A newspaper article: authors, titles, year, issue number and the date, each copied as given. */
  lemma GOSTNewspaperLayout(n: NewspaperModel)
    ensures GOSTNewspaperFormatted(n) == Ok(n.authors + " " + n.articleTitle + " // " + n.newspaperTitle + ". – " + IntToString(n.year) + ". – № " + IntToString(n.issue) + ". – " + n.date + ".")
  {
    NewspaperTemplateText(n.authors, n.articleTitle, n.newspaperTitle, IntToString(n.year), IntToString(n.issue), n.date);
  }

  // ----- dispatch -----

  /** `formatters_map`: every model class has its formatter. */
  const FormattersMap: map<Kind, GostFormatter> := map[
    BookKind := GOSTBook,
    InternetResourceKind := GOSTInternetResource,
    ArticlesCollectionKind := GOSTCollectionArticle,
    JournalArticleKind := GOSTJournalArticle,
    NewspaperKind := GOSTNewspaper]

  /** The table is total and sends each model class to the formatter declared for it. */
  lemma FormattersMapTotal(k: Kind)
    ensures k in FormattersMap && DataKind(FormattersMap[k]) == k
  {
  }

  /** `f(m).formatted` for a formatter and a record of the class it is declared for; it never raises. */
  function Formatted(f: GostFormatter, m: Model): (r: Result<string, string>)
    requires m.KindOf() == DataKind(f)
    ensures r.Ok?
  {
    match f
    case GOSTBook => GOSTBookLayout(m.book); GOSTBookFormatted(m.book)
    case GOSTInternetResource => GOSTInternetResourceLayout(m.resource); GOSTInternetResourceFormatted(m.resource)
    case GOSTCollectionArticle => GOSTCollectionArticleLayout(m.collection); GOSTCollectionArticleFormatted(m.collection)
    case GOSTJournalArticle => GOSTJournalArticleLayout(m.journal); GOSTJournalArticleFormatted(m.journal)
    case GOSTNewspaper => GOSTNewspaperLayout(m.newspaper); GOSTNewspaperFormatted(m.newspaper)
  }

  /** One step of `__init__`: look the record's class up in the table and build the formatter object. */
  function Render(m: Model): Result<Item<GostFormatter>, FormatError> {
    var k := m.KindOf();
    if k !in FormattersMap then Err(UnsupportedModel(k))
    else
      var f := FormattersMap[k];
      FormattersMapTotal(k);
      match Formatted(f, m)
      case Err(name) => Err(KeyError(name))
      case Ok(s) => Ok(Item(f, m, s))
  }

  /** Every record renders: to the formatter of its class, holding the record and that formatter's text. */
  lemma RenderTotal(m: Model)
    ensures Render(m).Ok?
    ensures Render(m).value.formatter == FormattersMap[m.KindOf()]
    ensures Render(m).value.data == m
    ensures DataKind(Render(m).value.formatter) == m.KindOf()
    ensures Render(m).value.formatted == Formatted(Render(m).value.formatter, m).value
  {
    FormattersMapTotal(m.KindOf());
  }


  /**
   * What `__init__` stores in `formatted_items`: the records rendered one by
   * one in input order, or the error of the first record that fails.
   */
  function FormatAll(models: seq<Model>): (r: Result<seq<Item<GostFormatter>>, FormatError>)
    ensures r.Ok? && RenderedFrom(r.value, models, Render)
    decreases |models|
  {
    if models == [] then Ok([])
    else
      var n := |models| - 1;
      match FormatAll(models[..n])
      case Err(e) => Err(e)
      case Ok(items) =>
        RenderTotal(models[n]);
        match Render(models[n])
        case Err(e) => Err(e)
        case Ok(item) =>
          RenderedFromExtend(items, models, Render);
          Ok(items + [item])
  }

  // ----- sorting -----

  /** `key(a) <= key(b)` for the key `(SORT_ORDER[...], item.formatted)`, compared as Python compares tuples. */
  predicate KeyLe(a: Item<GostFormatter>, b: Item<GostFormatter>) {
    || SortOrder(a.formatter) < SortOrder(b.formatter)
    || (SortOrder(a.formatter) == SortOrder(b.formatter) && LexLe(a.formatted, b.formatted))
  }

  lemma KeyLeTotalPreorder()
    ensures TotalPreorder(KeyLe)
  {
    forall a: Item<GostFormatter>, b: Item<GostFormatter>
      ensures KeyLe(a, b) || KeyLe(b, a)
    {
      LexLeTotal(a.formatted, b.formatted);
    }
    forall a: Item<GostFormatter>, b: Item<GostFormatter>, c: Item<GostFormatter> | KeyLe(a, b) && KeyLe(b, c)
      ensures KeyLe(a, c)
    {
      if SortOrder(a.formatter) == SortOrder(b.formatter) == SortOrder(c.formatter) {
        LexLeTransitive(a.formatted, b.formatted, c.formatted);
      }
    }
  }

  /** Two items have equal keys exactly when they have the same rank and the same text. */
  lemma KeyLeSameKey(a: Item<GostFormatter>, b: Item<GostFormatter>)
    ensures SameKey(KeyLe, a, b) <==> SortOrder(a.formatter) == SortOrder(b.formatter) && a.formatted == b.formatted
  {
    if SameKey(KeyLe, a, b) && SortOrder(a.formatter) == SortOrder(b.formatter) {
      LexLeAntisymmetric(a.formatted, b.formatted);
    }
    if a.formatted == b.formatted {
      LexLeReflexive(a.formatted);
    }
  }

  /** Every item of a lower rank comes before every item of a higher rank. */
  predicate GroupedByRank(r: seq<Item<GostFormatter>>) {
    forall i, j :: 0 <= i < j < |r| ==> SortOrder(r[i].formatter) <= SortOrder(r[j].formatter)
  }

  /** Items of the same rank are in the order of their formatted text. */
  predicate AlphabeticalWithinRank(r: seq<Item<GostFormatter>>) {
    forall i, j :: 0 <= i < j < |r| ==>
      SortOrder(r[i].formatter) == SortOrder(r[j].formatter) ==> LexLe(r[i].formatted, r[j].formatted)
  }

  /** `sorted(items, key=...)` with the GOST key. */
  function SortItems(items: seq<Item<GostFormatter>>): (r: seq<Item<GostFormatter>>)
    ensures multiset(r) == multiset(items)
    ensures GroupedByRank(r) && AlphabeticalWithinRank(r)
    ensures StableOrder(r, items, KeyLe)
  {
    KeyLeTotalPreorder();
    var r := Sort(items, KeyLe);
    assert forall i, j :: 0 <= i < j < |r| ==> KeyLe(r[i], r[j]);
    r
  }

  /** Any stable sort of the items by the GOST key returns exactly `SortItems`. */
  lemma SortItemsUnique(items: seq<Item<GostFormatter>>, r: seq<Item<GostFormatter>>)
    requires Sorted(r, KeyLe) && StableOrder(r, items, KeyLe)
    ensures r == SortItems(items)
  {
    KeyLeTotalPreorder();
    SortedStableUnique(r, SortItems(items), KeyLe);
  }

  /** `GOSTCitationFormatter`: the formatted list of a bibliography in the GOST style. */
  class GOSTCitationFormatter {
    var formattedItems: seq<Item<GostFormatter>>

    /** `__init__(models)`: renders every record in order; with a total table nothing can fail. */
    constructor (models: seq<Model>)
      ensures FormatAll(models) == Ok(formattedItems)
      ensures |formattedItems| == |models|
      ensures forall i :: 0 <= i < |models| ==> formattedItems[i].data == models[i]
      ensures forall i :: 0 <= i < |models| ==> formattedItems[i].formatter == FormattersMap[models[i].KindOf()]
      ensures forall i :: 0 <= i < |models| ==>
        formattedItems[i].formatted == Formatted(formattedItems[i].formatter, models[i]).value
    {
      var items: seq<Item<GostFormatter>> := [];
      for i := 0 to |models|
        invariant FormatAll(models[..i]) == Ok(items)
      {
        var m := models[i];
        FormattersMapTotal(m.KindOf());
        var f := FormattersMap[m.KindOf()];
        var text := Formatted(f, m);
        items := items + [Item(f, m, text.value)];
        assert models[..i + 1][..i] == models[..i];
      }
      assert models[..|models|] == models;
      formattedItems := items;
      forall i | 0 <= i < |models| {
        RenderTotal(models[i]);
      }
    }

    /** `format()`: the items sorted by (rank of their kind, formatted text), stably. */
    function Format(): (r: seq<Item<GostFormatter>>)
      reads this
      ensures r == SortItems(formattedItems)
      ensures multiset(r) == multiset(formattedItems)
      ensures GroupedByRank(r) && AlphabeticalWithinRank(r)
      ensures StableOrder(r, formattedItems, KeyLe)
    {
      SortItems(formattedItems)
    }
  }
}
