/** The records the GOST tests build, and the exact strings those tests expect them to render to. */
module GostFixtures {
  import opened Wrappers
  import opened Text
  import opened Models
  import opened Gost

  /** Part 1 of spelling out the Book fixture text. */
  lemma GOSTBookText1()
    ensures "Иванов И.М., Петров С.Н." + " " + "Наука как искусство" + ". – "
      == "Иванов И.М., Петров С.Н. Наука как искусство. – "
  {
  }

  /** Part 2 of spelling out the Book fixture text. */
  lemma GOSTBookText2()
    ensures "Иванов И.М., Петров С.Н. Наука как искусство. – " + "3-е" + " изд. – " + "СПб."
      == "Иванов И.М., Петров С.Н. Наука как искусство. – 3-е изд. – СПб."
  {
  }

  /** Part 3 of spelling out the Book fixture text. */
  lemma GOSTBookText3()
    ensures "Иванов И.М., Петров С.Н. Наука как искусство. – 3-е изд. – СПб." + ": " + "Просвещение" + ", "
      == "Иванов И.М., Петров С.Н. Наука как искусство. – 3-е изд. – СПб.: Просвещение, "
  {
  }

  /** Part 4 of spelling out the Book fixture text. */
  lemma GOSTBookText4()
    ensures "Иванов И.М., Петров С.Н. Наука как искусство. – 3-е изд. – СПб.: Просвещение, " + "2020" + ". – " + "999"
      == "Иванов И.М., Петров С.Н. Наука как искусство. – 3-е изд. – СПб.: Просвещение, 2020. – 999"
  {
  }

  /** Part 5 of spelling out the Book fixture text. */
  lemma GOSTBookText5()
    ensures "Иванов И.М., Петров С.Н. Наука как искусство. – 3-е изд. – СПб.: Просвещение, 2020. – 999" + " с."
      == "Иванов И.М., Петров С.Н. Наука как искусство. – 3-е изд. – СПб.: Просвещение, 2020. – 999 с."
  {
  }

  /** The Book fixture's fields and separators join into the one string its test compares against. */
  lemma GOSTBookText()
    ensures "Иванов И.М., Петров С.Н." + " " + "Наука как искусство" + ". – " + "3-е" + " изд. – " + "СПб." + ": " + "Просвещение" + ", " + "2020" + ". – " + "999" + " с."
      == "Иванов И.М., Петров С.Н. Наука как искусство. – 3-е изд. – СПб.: Просвещение, 2020. – 999 с."
  {
    GOSTBookText1();
    GOSTBookText2();
    GOSTBookText3();
    GOSTBookText4();
    GOSTBookText5();
  }

  /** The book fixture of the GOST tests renders to the text the test expects. */
  lemma GOSTBookFixture()
    ensures GOSTBookFormatted(BookModel("Иванов И.М., Петров С.Н.", "Наука как искусство", Some("3-е"), "СПб.", "Просвещение", 2020, 999))
      == Ok("Иванов И.М., Петров С.Н. Наука как искусство. – 3-е изд. – СПб.: Просвещение, 2020. – 999 с.")
  {
    GOSTBookWithEdition(BookModel("Иванов И.М., Петров С.Н.", "Наука как искусство", Some("3-е"), "СПб.", "Просвещение", 2020, 999));
    assert IntToString(2020) == "2020";
    assert IntToString(999) == "999";
    GOSTBookText();
  }

  /** Part 1 of spelling out the InternetResource fixture text. */
  lemma GOSTInternetResourceText1()
    ensures "Наука как искусство" + " // " + "Ведомости" + " URL: "
      == "Наука как искусство // Ведомости URL: "
  {
  }

  /** Part 2 of spelling out the InternetResource fixture text. */
  lemma GOSTInternetResourceText2()
    ensures "Наука как искусство // Ведомости URL: " + "https://www.vedomosti.ru" + " (дата обращения: " + "01.01.2021"
      == "Наука как искусство // Ведомости URL: https://www.vedomosti.ru (дата обращения: 01.01.2021"
  {
    assert "Наука как искусство // Ведомости URL: " + "https://www.vedomosti.ru" == "Наука как искусство // Ведомости URL: https://www.vedomosti.ru";
    assert "Наука как искусство // Ведомости URL: https://www.vedomosti.ru" + " (дата обращения: " == "Наука как искусство // Ведомости URL: https://www.vedomosti.ru (дата обращения: ";
    assert "Наука как искусство // Ведомости URL: https://www.vedomosti.ru (дата обращения: " + "01.01.2021" == "Наука как искусство // Ведомости URL: https://www.vedomosti.ru (дата обращения: 01.01.2021";
  }

  /** Part 3 of spelling out the InternetResource fixture text. */
  lemma GOSTInternetResourceText3()
    ensures "Наука как искусство // Ведомости URL: https://www.vedomosti.ru (дата обращения: 01.01.2021" + ")."
      == "Наука как искусство // Ведомости URL: https://www.vedomosti.ru (дата обращения: 01.01.2021)."
  {
  }

  /** The InternetResource fixture's fields and separators join into the one string its test compares against. */
  lemma GOSTInternetResourceText()
    ensures "Наука как искусство" + " // " + "Ведомости" + " URL: " + "https://www.vedomosti.ru" + " (дата обращения: " + "01.01.2021" + ")."
      == "Наука как искусство // Ведомости URL: https://www.vedomosti.ru (дата обращения: 01.01.2021)."
  {
    GOSTInternetResourceText1();
    GOSTInternetResourceText2();
    GOSTInternetResourceText3();
  }

  /** The internet resource fixture of the GOST tests renders to the text the test expects. */
  lemma GOSTInternetResourceFixture()
    ensures GOSTInternetResourceFormatted(InternetResourceModel("Наука как искусство", "Ведомости", "https://www.vedomosti.ru", "01.01.2021"))
      == Ok("Наука как искусство // Ведомости URL: https://www.vedomosti.ru (дата обращения: 01.01.2021).")
  {
    GOSTInternetResourceLayout(InternetResourceModel("Наука как искусство", "Ведомости", "https://www.vedomosti.ru", "01.01.2021"));
    GOSTInternetResourceText();
  }

  /** Part 1 of spelling out the CollectionArticle fixture text. */
  lemma GOSTCollectionArticleText1()
    ensures "Иванов И.М., Петров С.Н." + " " + "Наука как искусство" + " // "
      == "Иванов И.М., Петров С.Н. Наука как искусство // "
  {
  }

  /** Part 2 of spelling out the CollectionArticle fixture text. */
  lemma GOSTCollectionArticleText2()
    ensures "Иванов И.М., Петров С.Н. Наука как искусство // " + "Сборник научных трудов" + ". – " + "СПб."
      == "Иванов И.М., Петров С.Н. Наука как искусство // Сборник научных трудов. – СПб."
  {
  }

  /** Part 3 of spelling out the CollectionArticle fixture text. */
  lemma GOSTCollectionArticleText3()
    ensures "Иванов И.М., Петров С.Н. Наука как искусство // Сборник научных трудов. – СПб." + ": " + "АСТ" + ", "
      == "Иванов И.М., Петров С.Н. Наука как искусство // Сборник научных трудов. – СПб.: АСТ, "
  {
  }

  /** Part 4 of spelling out the CollectionArticle fixture text. */
  lemma GOSTCollectionArticleText4()
    ensures "Иванов И.М., Петров С.Н. Наука как искусство // Сборник научных трудов. – СПб.: АСТ, " + "2020" + ". – С. " + "25-30"
      == "Иванов И.М., Петров С.Н. Наука как искусство // Сборник научных трудов. – СПб.: АСТ, 2020. – С. 25-30"
  {
  }

  /** Part 5 of spelling out the CollectionArticle fixture text. */
  lemma GOSTCollectionArticleText5()
    ensures "Иванов И.М., Петров С.Н. Наука как искусство // Сборник научных трудов. – СПб.: АСТ, 2020. – С. 25-30" + "."
      == "Иванов И.М., Петров С.Н. Наука как искусство // Сборник научных трудов. – СПб.: АСТ, 2020. – С. 25-30."
  {
  }

  /** The CollectionArticle fixture's fields and separators join into the one string its test compares against. */
  lemma GOSTCollectionArticleText()
    ensures "Иванов И.М., Петров С.Н." + " " + "Наука как искусство" + " // " + "Сборник научных трудов" + ". – " + "СПб." + ": " + "АСТ" + ", " + "2020" + ". – С. " + "25-30" + "."
      == "Иванов И.М., Петров С.Н. Наука как искусство // Сборник научных трудов. – СПб.: АСТ, 2020. – С. 25-30."
  {
    GOSTCollectionArticleText1();
    GOSTCollectionArticleText2();
    GOSTCollectionArticleText3();
    GOSTCollectionArticleText4();
    GOSTCollectionArticleText5();
  }

  /** The collection article fixture of the GOST tests renders to the text the test expects. */
  lemma GOSTCollectionArticleFixture()
    ensures GOSTCollectionArticleFormatted(ArticlesCollectionModel("Иванов И.М., Петров С.Н.", "Наука как искусство", "Сборник научных трудов", "СПб.", "АСТ", 2020, "25-30"))
      == Ok("Иванов И.М., Петров С.Н. Наука как искусство // Сборник научных трудов. – СПб.: АСТ, 2020. – С. 25-30.")
  {
    GOSTCollectionArticleLayout(ArticlesCollectionModel("Иванов И.М., Петров С.Н.", "Наука как искусство", "Сборник научных трудов", "СПб.", "АСТ", 2020, "25-30"));
    assert IntToString(2020) == "2020";
    GOSTCollectionArticleText();
  }
}
