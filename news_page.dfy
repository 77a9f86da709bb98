/** The public news page: a constant list of items shown through a search
    box, a year select and a category select, with a "no results" block and
    a "load more" button. */
module NewsPage {
  import opened Strings
  import opened ListFilters
  import Seqs

  /** One item of the list. */
  datatype NewsItem = NewsItem(
    id: nat,
    title: string,
    date: string,
    category: string,
    excerpt: string,
    image: string,
    readTime: string)

  /** The `newsItems` array of the page. */
  const Items: seq<NewsItem> := [
    NewsItem(1, "Становище относно актуализацията на бюджета за 2024 година", "15 юли 2024", "Становище",
             "Фискалният съвет анализира предложените промени в държавния бюджет и техните възможни последици за фискалната устойчивост. Основните изводи показват необходимост от по-консервативен подход при прогнозирането на приходите.",
             "https://images.unsplash.com/photo-1554224155-6726b3ff858f?w=400&h=200&fit=crop", "5 мин"),
    NewsItem(2, "Доклад за изпълнението на бюджета за първото полугодие", "28 юни 2024", "Доклад",
             "Детайлен анализ на постигнатите резултати при изпълнението на държавния бюджет през първите шест месеца от годината. Отчетен е дефицит от 2.1% от БВП.",
             "https://images.unsplash.com/photo-1611974789855-9c2a0a7236a3?w=400&h=200&fit=crop", "8 мин"),
    NewsItem(3, "Оценка на макроикономическите прогнози за 2024-2026", "10 май 2024", "Анализ",
             "Анализ на прогнозите за икономическо развитие и тяхното въздействие върху публичните финанси. Очаква се умерен ръст на БВП от 2.8% за 2024 година.",
             "https://images.unsplash.com/photo-1551288049-bebda4e38f71?w=400&h=200&fit=crop", "6 мин"),
    NewsItem(4, "Прессъобщение: Нова методология за оценка на фискалните рискове", "22 април 2024", "Прессъобщение",
             "Фискалният съвет въвежда обновена методология за идентифициране и оценка на основните фискални рискове за българската икономика.",
             "https://images.unsplash.com/photo-1460925895917-afdab827c52f?w=400&h=200&fit=crop", "3 мин"),
    NewsItem(5, "Становище по проекта за изменение на Закона за публичните финанси", "5 март 2024", "Становище",
             "Анализ и препоръки относно предложените промени в законодателството, касаещи управлението на публичните финанси и фискалните правила.",
             "https://images.unsplash.com/photo-1589829545856-d10d557cf95f?w=400&h=200&fit=crop", "7 мин"),
    NewsItem(6, "Годишен доклад за дейността на Фискалния съвет за 2023", "15 февруари 2024", "Доклад",
             "Цялостен преглед на дейността и постиженията на Фискалния съвет през изминалата година, включително основните анализи и становища.",
             "https://images.unsplash.com/photo-1507003211169-0a1dd7228f2d?w=400&h=200&fit=crop", "12 мин")
  ]

  /** The three filter inputs. */
  datatype Inputs = Inputs(searchTerm: string, selectedYear: string, selectedCategory: string)

  /** The inputs when the page opens: no search, every year, every category. */
  const Initial := Inputs("", All, All)

  /** The title or the excerpt contains the term, case aside. */
  predicate MatchesSearch(n: NewsItem, term: string) {
    TextMatches(n.title, term) || TextMatches(n.excerpt, term)
  }

  /** The three tests of `filteredNews`, all of which must hold. */
  predicate Matches(n: NewsItem, f: Inputs) {
    MatchesSearch(n, f.searchTerm) && YearMatches(f.selectedYear, n.date) && ChoiceMatches(f.selectedCategory, n.category)
  }

  function Shown(f: Inputs): NewsItem -> bool {
    (n: NewsItem) => Matches(n, f)
  }

  /** `filteredNews`. */
  function Filtered(items: seq<NewsItem>, f: Inputs): seq<NewsItem> {
    Seqs.Filter(items, Shown(f))
  }

  /** The "no results" block. */
  predicate ShowsNoResults(items: seq<NewsItem>, f: Inputs) {
    |Filtered(items, f)| == 0
  }

  /** The "load more" button. */
  predicate ShowsLoadMore(items: seq<NewsItem>, f: Inputs) {
    |Filtered(items, f)| > 0
  }

  /** An item is shown exactly when the search, the year and the category
      tests all hold for it. */
  lemma {:induction false} ShownIff(items: seq<NewsItem>, f: Inputs, n: NewsItem)
    ensures n in Filtered(items, f) <==>
      n in items && MatchesSearch(n, f.searchTerm) && YearMatches(f.selectedYear, n.date)
      && ChoiceMatches(f.selectedCategory, n.category)
  {
    Seqs.FilterMembership(items, Shown(f), n);
  }

  /** The shown items keep the order of the list, and the count shown never
      exceeds the total. */
  lemma {:induction false} ShownInOrder(items: seq<NewsItem>, f: Inputs)
    ensures Seqs.IsSubsequence(Filtered(items, f), items)
    ensures |Filtered(items, f)| <= |items|
  {
    Seqs.FilterIsSubsequence(items, Shown(f));
  }

  /** With the initial inputs every item is shown. */
  lemma {:induction false} InitialShowsAll(items: seq<NewsItem>)
    ensures Filtered(items, Initial) == items
  {
    forall i | 0 <= i < |items| ensures Shown(Initial)(items[i]) {
      EmptySearchMatches(items[i].title);
    }
    Seqs.FilterAllPass(items, Shown(Initial));
  }

  /** On first load the page shows every item of its list, with the "load
      more" button and without the "no results" block. */
  lemma {:induction false} ItemsShownAtFirst()
    ensures Filtered(Items, Initial) == Items
    ensures ShowsLoadMore(Items, Initial) && !ShowsNoResults(Items, Initial)
  {
    InitialShowsAll(Items);
  }

  /** Exactly one of the "no results" block and the "load more" button is
      shown, and "no results" means that no item passes the tests. */
  lemma {:induction false} NoResultsOrLoadMore(items: seq<NewsItem>, f: Inputs)
    ensures ShowsNoResults(items, f) != ShowsLoadMore(items, f)
    ensures ShowsNoResults(items, f) <==> forall i :: 0 <= i < |items| ==> !Matches(items[i], f)
  {
    if ShowsNoResults(items, f) {
      forall i | 0 <= i < |items| ensures !Matches(items[i], f) {
        ShownIff(items, f, items[i]);
      }
    }
    if forall i :: 0 <= i < |items| ==> !Matches(items[i], f) {
      Seqs.FilterNonePass(items, Shown(f));
    }
  }

  /** Choosing a year or a category, or typing a search term, only narrows
      what is shown. */
  lemma {:induction false} NarrowingOnly(items: seq<NewsItem>, f: Inputs)
    ensures Seqs.IsSubsequence(Filtered(items, f), Filtered(items, f.(selectedYear := All)))
    ensures Seqs.IsSubsequence(Filtered(items, f), Filtered(items, f.(selectedCategory := All)))
    ensures Seqs.IsSubsequence(Filtered(items, f), Filtered(items, f.(searchTerm := "")))
  {
    Seqs.FilterMonotone(items, Shown(f), Shown(f.(selectedYear := All)));
    Seqs.FilterMonotone(items, Shown(f), Shown(f.(selectedCategory := All)));
    forall n: NewsItem | Shown(f)(n) ensures Shown(f.(searchTerm := ""))(n) {
      EmptySearchMatches(n.title);
    }
    Seqs.FilterMonotone(items, Shown(f), Shown(f.(searchTerm := "")));
  }

  /** Only items of the chosen category, and of the chosen year, are shown. */
  lemma {:induction false} ChosenCategoryOnly(items: seq<NewsItem>, f: Inputs, n: NewsItem)
    requires n in Filtered(items, f)
    ensures f.selectedCategory != All ==> n.category == f.selectedCategory
    ensures f.selectedYear != All ==> exists i: nat :: OccursAt(n.date, f.selectedYear, i)
  {
    ShownIff(items, f, n);
    if f.selectedYear != All {
      YearIsSubstring(f.selectedYear, n.date);
    }
  }
}
