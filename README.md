# Bibliography formatter: records, citation styles and list sorting

This project models the formatting layer of a bibliography generator. Five kinds of
bibliographic record exist: a book, an internet resource, an article in a collection,
a journal article and a newspaper article. Each is a pydantic model with a few
positive-integer constraints. Two citation styles turn a list of records into
formatted entries:

- **GOST R 7.0.5-2008**, with a template for every record kind. Its list formatter
  sorts the entries first by a fixed rank of the record kind, then by the formatted text.
- **NLM (National Library of Medicine)**, with templates for journal and newspaper
  articles only. Its list formatter raises as soon as the list holds any other kind
  of record. It sorts by the formatted text alone.

Modules:

- `Wrappers` (`wrappers.dfy`): `Option` and `Result`.
- `Text` (`text.dfy`): the three Python string behaviours the formatters rely on.
  - `str(int)` is `IntToString`, with its inverse `ParseInt`.
  - Ordering of `str` values, code point by code point, is `LexLe`, proved to be a total order.
  - `str.rstrip(c)` is `RStrip`.
- `Models` (`models.dfy`):
  - one datatype per record kind, and the union `Model` tagged by its `Kind`;
  - the pydantic construction checks (`gt=0`), as functions returning either the
    record or the list of failing fields;
  - `BookInstance`, a class for the one operation that rewrites a record in place
    (`trim_authors_dots`).
- `Templates` (`templates.dfy`): `string.Template` as the styles use it.
  - A template is a sequence of literal pieces and `$name` placeholders.
  - `Substitute` fills every placeholder from the keyword map in one left-to-right
    pass, or fails with the first missing name (Python's `KeyError`).
- `Citations` (`citations.dfy`): a formatted item (formatter class, record, text)
  and the errors building a list can raise.
- `Sorting` (`sorting.dfy`): Python's `sorted` with a key.
  - `Sort` is a stable insertion sort over any total preorder. It is proved to return
    a sorted, stable permutation.
  - That result is proved unique, so `Sort` is the answer every stable sort gives,
    Timsort included.
- `Gost` (`gost.dfy`):
  - the five GOST formatters and their templates, with the exact text each produces;
  - the edition clause of a book;
  - `SORT_ORDER`, the total formatter table, and `GOSTCitationFormatter` (a class
    whose constructor renders every record in order and whose `Format` sorts them).
- `GostFixtures` (`gost_fixtures.dfy`): the book, internet resource and collection
  article fixtures of the GOST tests render to exactly the strings those tests expect.
- `Nlm` (`nlm.dfy`): the two NLM formatters, the two-entry table and `NLMCitationFormatter`.
  - Rendering fails at the first record without a formatter, and then no object is created.
  - Otherwise the items are sorted by text alone.

The text fields are meant to be non-empty, but the models declare them as plain `str`
with no constraint. The model follows the code: empty text is accepted, and only the
fields declared `gt=0` are checked.

## Model

| member | source | states |
|---|---|---|
| Text.IntToStringRoundTrip | src/formatters/styles/gost.py:53-54 | the text `str` gives an integer (minus sign for negatives, then digits) reads back as the same integer |
| Text.PositiveIntToString | src/formatters/models.py:32-33 | a value that passes `gt=0` is written with digits only and no leading zero |
| Text.LexLeReflexive | src/formatters/styles/gost.py:204-207 | every string compares `<=` to itself |
| Text.LexLeAntisymmetric | src/formatters/styles/gost.py:204-207 | two strings each `<=` the other are equal |
| Text.LexLeTransitive | src/formatters/styles/gost.py:204-207 | string `<=` is transitive |
| Text.LexLeTotal | src/formatters/styles/gost.py:204-207 | any two strings are comparable |
| Text.RStrip | src/formatters/models.py:37 | `rstrip(c)` returns a prefix of the input that does not end in `c`, and everything it removed was `c` |
| Text.RStripIdempotent | src/formatters/models.py:37 | stripping a second time changes nothing |
| Models.NewBookModel | src/formatters/models.py:27-33 | a book is built exactly when year and pages are both > 0, holding the given fields; otherwise the error names exactly the failing fields |
| Models.NewArticlesCollectionModel | src/formatters/models.py:78-84 | a collection article is built exactly when year > 0, and its page range may be any text; otherwise the error names the year |
| Models.NewJournalArticleModel | src/formatters/models.py:104-109 | a journal article is built exactly when year and issue are both > 0; otherwise the error names exactly the failing fields |
| Models.NewNewspaperModel | src/formatters/models.py:129-134 | a newspaper article is built exactly when year and issue are both > 0, and the date may be any text; otherwise the error names exactly the failing fields |
| Models.BookInstance.constructor | src/formatters/models.py:27-33 | the new object holds exactly the given record |
| Models.BookInstance.TrimAuthorsDots | src/formatters/models.py:35-37 | `authors` loses its trailing dots and only those (a prefix, no final '.'); every other field is unchanged; a valid record stays valid |
| Templates.Substitute | src/formatters/styles/gost.py:47-55 | substitution succeeds exactly when every placeholder has a keyword; a failure names the first placeholder, in reading order, that has none |
| Templates.SubstituteAppend | src/formatters/styles/gost.py:47-55 | filling two templates written one after the other gives the two fillings concatenated |
| Templates.ValueCopiedVerbatim | src/tests/formatters/test_gost.py:103-106 | a keyword's value appears verbatim between the text before and after its placeholder, `$` characters included |
| Sorting.Sort | src/formatters/styles/gost.py:204-207 | sorting with a key returns a permutation of the input that is ordered by the key and keeps items with equal keys in input order |
| Sorting.SortedStableUnique | src/formatters/styles/gost.py:204-207 | two permutations of a list that are both key-ordered and stable are the same list, so any stable sort gives `Sort`'s result |
| Gost.BookTemplateText | src/formatters/styles/gost.py:37-41 | the book template filled with any values is exactly authors, " ", title, ". – ", edition, city, ": ", publisher, ", ", year, ". – ", pages, " с." |
| Gost.GOSTBookLayout | src/formatters/styles/gost.py:43-55 | a book's formatted text is that layout filled from its fields, with the edition clause and `str` of year and pages |
| Gost.GOSTBookWithEdition | src/formatters/styles/gost.py:57-64 | with a non-empty edition, "<edition> изд. – " follows the title's ". – " |
| Gost.GOSTBookWithoutEdition | src/formatters/styles/gost.py:64 | with no edition or an empty one, the title's ". – " runs straight into the city |
| Gost.InternetResourceTemplateText | src/formatters/styles/gost.py:74-78 | the template filled with any values is exactly article, " // ", website, " URL: ", link, " (дата обращения: ", access date, ")." |
| Gost.GOSTInternetResourceLayout | src/formatters/styles/gost.py:80-89 | an internet resource's formatted text is that layout filled from its four text fields |
| Gost.CollectionArticleTemplateText | src/formatters/styles/gost.py:99-103 | the template filled with any values is exactly authors, " ", title, " // ", collection, ". – ", city, ": ", publisher, ", ", year, ". – С. ", pages, "." |
| Gost.GOSTCollectionArticleLayout | src/formatters/styles/gost.py:105-117 | a collection article's formatted text is that layout, with `str` of the year and the page range as written |
| Gost.JournalArticleTemplateText | src/formatters/styles/gost.py:127-131 | the template filled with any values is exactly authors, " ", title, " // ", journal, ". – ", year, ". – № ", issue, ". – С. ", pages, "." |
| Gost.GOSTJournalArticleLayout | src/formatters/styles/gost.py:133-143 | a journal article's formatted text is that layout, with `str` of year and issue |
| Gost.NewspaperTemplateText | src/formatters/styles/gost.py:153-157 | the template filled with any values is exactly authors, " ", title, " // ", newspaper, ". – ", year, ". – № ", issue, ". – ", date, "." |
| Gost.GOSTNewspaperLayout | src/formatters/styles/gost.py:159-169 | a newspaper article's formatted text is that layout, with `str` of year and issue and the date last |
| Gost.FormattersMapTotal | src/formatters/styles/gost.py:177-183 | every model class has an entry, and it is the formatter declared for that class |
| Gost.Formatted | src/formatters/styles/gost.py:43-169 | a GOST formatter given a record of its declared class never fails to render |
| Gost.RenderTotal | src/formatters/styles/gost.py:194 | every record renders to the formatter of its class, which holds the record and that formatter's text |
| Gost.FormatAll | src/formatters/styles/gost.py:185-196 | `formatted_items` always exists, has one item per record, and item i is record i rendered |
| Gost.KeyLeTotalPreorder | src/formatters/styles/gost.py:204-207 | the tuple key (rank, text) orders items totally and transitively |
| Gost.KeyLeSameKey | src/formatters/styles/gost.py:206 | two items tie on the key exactly when they have the same rank and the same text |
| Gost.SortItems | src/formatters/styles/gost.py:204-207 | the sorted list is a permutation of the input that is grouped by `SORT_ORDER` rank, alphabetical within a rank, and stable for ties |
| Gost.SortItemsUnique | src/formatters/styles/gost.py:204-207 | any stable sort by the GOST key returns exactly `SortItems` |
| Gost.GOSTCitationFormatter.constructor | src/formatters/styles/gost.py:185-196 | `formatted_items` holds one item per record in input order; each item holds its record, the formatter of the record's class and that formatter's text |
| Gost.GOSTCitationFormatter.Format | src/formatters/styles/gost.py:198-207 | `format()` returns the stored items as a permutation grouped by rank, alphabetical within a rank, and stable |
| GostFixtures.GOSTBookFixture | src/tests/formatters/test_gost.py:35-40 | the book fixture renders to exactly the string the book test expects |
| GostFixtures.GOSTInternetResourceFixture | src/tests/formatters/test_gost.py:52-57 | the internet resource fixture renders to exactly the string its test expects |
| GostFixtures.GOSTCollectionArticleFixture | src/tests/formatters/test_gost.py:69-74 | the collection article fixture renders to exactly the string its test expects |
| Nlm.JournalArticleTemplateText | src/formatters/styles/nlm.py:28-32 | the template filled with any values is exactly authors, " ", title, ". ", journal, ". ", year, ";", issue, ":", pages, "." |
| Nlm.NLMJournalArticleLayout | src/formatters/styles/nlm.py:34-44 | a journal article's NLM text is that layout, with `str` of year and issue |
| Nlm.NewspaperTemplateText | src/formatters/styles/nlm.py:54-58 | the template filled with any values is exactly authors, " ", title, ". ", newspaper, ". ", date, ".", year, ";", issue, "." |
| Nlm.NLMNewspaperLayout | src/formatters/styles/nlm.py:60-70 | a newspaper article's NLM text is that layout: the date comes before the year |
| Nlm.FormattersMapDomain | src/formatters/styles/nlm.py:78-81 | the table has entries for journal and newspaper articles and for nothing else, each pointing to the formatter declared for it |
| Nlm.Formatted | src/formatters/styles/nlm.py:34-70 | an NLM formatter given a record of its declared class never fails to render |
| Nlm.Render | src/formatters/styles/nlm.py:95 | a record fails exactly when its class has no entry, and then the error names the class; otherwise it renders to the formatter of its class, holding the record and that text |
| Nlm.FormatAll | src/formatters/styles/nlm.py:83-97 | the list is built exactly when every record has a formatter, with one item per record in order; otherwise the error is that of the first unsupported record |
| Nlm.UnsupportedKinds | src/formatters/styles/nlm.py:78-95 | the first unsupported record decides the error, and it is a book, an internet resource or a collection article |
| Nlm.BookRejected | src/formatters/styles/nlm.py:78-95 | a list holding one book fails, naming the book's class |
| Nlm.KeyLeTotalPreorder | src/formatters/styles/nlm.py:106 | ordering by formatted text is total and transitive |
| Nlm.KeyLeSameKey | src/formatters/styles/nlm.py:106 | two items tie exactly when their texts are equal, whatever their formatter classes |
| Nlm.SortItems | src/formatters/styles/nlm.py:106 | the sorted list is a permutation of the input, alphabetical, and stable for equal texts |
| Nlm.SortItemsUnique | src/formatters/styles/nlm.py:106 | any stable sort by formatted text returns exactly `SortItems` |
| Nlm.NLMCitationFormatter.constructor | src/formatters/styles/nlm.py:97 | the object stores the given items as `formatted_items` |
| Nlm.NLMCitationFormatter.Build | src/formatters/styles/nlm.py:83-97 | constructing fails exactly when rendering the list fails, with the same error and no object; otherwise a fresh object holds the rendered list |
| Nlm.NLMCitationFormatter.Format | src/formatters/styles/nlm.py:99-106 | `format()` returns the stored items as an alphabetical, stable permutation |

## Left out

- Logging (`logger.info`) has no effect on results and is not modelled.
- `string.Template` is modelled only as far as these fixed templates use it.
  - `$$` escapes, `${name}` braces, invalid-placeholder errors and `safe_substitute` do not occur in them.
- pydantic is modelled only through the declared `gt=0` constraints. Type coercion
  (a numeric string accepted for an `int` field) is left out.
- `formatters/styles/base.py` is not part of this model.
  - An item's `formatted` is taken to be its `substitute()` result, as the GOST tests check.
  - The tests' `BaseCitationFormatter` is not modelled.
- The readers (`src/readers/reader.py`) that build records from spreadsheets are file I/O and are outside the formatting core.
- The table lookup is keyed by the record's `Kind`, not by the class-name string `type(model).__name__`; the two correspond one to one.
- Nlm.NLMCitationFormatter.Build: a Dafny constructor cannot fail, so the raising
  `NLMCitationFormatter(models)` is a static method that returns the object or the error.
  - The error stands for Python's `TypeError` from calling `None`; its message text is not modelled.
- Models.BookInstance.TrimAuthorsDots: in the source it is a `@property`, so reading it
  mutates the record and yields `None`; the model makes it a method with no result.
- Sorting.Sort: an insertion sort stands for Python's Timsort. `SortedStableUnique` shows
  that both return the same list; running time is not modelled.
- The journal and newspaper fixtures of the GOST tests are not restated as lemmas.
  - Their expected strings are 146 and 160 characters long. Each step that appends a
    piece onto a literal of about 140 characters costs the verifier well over half of
    its per-proof budget, so the journal fixture does not fit, even split into parts.
  - The newspaper fixture's title is a single 88-character literal, and appending it
    runs out of budget on its own.
  - `Gost.GOSTJournalArticleLayout` and `Gost.GOSTNewspaperLayout` state their layouts for all inputs.
- Determinism of `format()` is not stated separately, since a Dafny function always returns the same result for the same state.
