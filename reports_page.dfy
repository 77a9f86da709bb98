/** The public reports page: a constant catalogue of documents shown
    through a search box, a year select and a type select. */
module ReportsPage {
  import opened Strings
  import opened ListFilters
  import Seqs

  /** One document of the catalogue. */
  datatype Report = Report(
    id: nat,
    title: string,
    date: string,
    reportType: string,
    keywords: seq<string>,
    fileSize: string,
    pages: nat,
    summary: string)

  /** The `reports` array of the page. */
  const Catalogue: seq<Report> := [
    Report(1, "Становище относно актуализацията на бюджета за 2024 година", "15.07.2024", "Становище",
           ["бюджет", "актуализация", "фискална политика"], "2.3 MB", 45,
           "Анализ на предложените промени в държавния бюджет за 2024 г."),
    Report(2, "Доклад за изпълнението на бюджета - I полугодие 2024", "28.06.2024", "Доклад",
           ["изпълнение", "бюджет", "полугодие"], "4.1 MB", 78,
           "Детайлен анализ на бюджетното изпълнение за първите 6 месеца"),
    Report(3, "Оценка на макроикономическите прогнози 2024-2026", "10.05.2024", "Анализ",
           ["прогнози", "макроикономика", "БВП"], "1.8 MB", 32,
           "Анализ на прогнозите за икономическо развитие"),
    Report(4, "Становище по проекта за изменение на ЗПУБФ", "05.03.2024", "Становище",
           ["законодателство", "публични финанси"], "1.2 MB", 18,
           "Анализ на предложените промени в закона"),
    Report(5, "Годишен доклад за дейността за 2023 година", "15.02.2024", "Годишен доклад",
           ["годишен доклад", "дейност", "2023"], "5.7 MB", 95,
           "Цялостен преглед на дейността през 2023 г."),
    Report(6, "Оценка на устойчивостта на публичните финанси", "12.12.2023", "Анализ",
           ["устойчивост", "дълг", "демография"], "3.2 MB", 58,
           "Дългосрочен анализ на фискалната устойчивост"),
    Report(7, "Становище относно Конвергентната програма 2023-2026", "28.04.2023", "Становище",
           ["конвергентна програма", "еврозона"], "2.1 MB", 41,
           "Анализ на програмата за присъединяване към еврозоната"),
    Report(8, "Доклад за фискалното въздействие на COVID-19", "15.09.2022", "Специален доклад",
           ["COVID-19", "пандемия", "фискално въздействие"], "2.8 MB", 52,
           "Анализ на фискалното въздействие на пандемията")
  ]

  /** The three filter inputs. */
  datatype Inputs = Inputs(searchTerm: string, selectedYear: string, selectedType: string)

  /** The inputs when the page opens: no search, every year, every type. */
  const Initial := Inputs("", All, All)

  /** The title, or some keyword, contains the term, case aside. */
  predicate MatchesSearch(r: Report, term: string) {
    TextMatches(r.title, term) || exists i :: 0 <= i < |r.keywords| && TextMatches(r.keywords[i], term)
  }

  /** The three tests of `filteredReports`, all of which must hold. */
  predicate Matches(r: Report, f: Inputs) {
    MatchesSearch(r, f.searchTerm) && YearMatches(f.selectedYear, r.date) && ChoiceMatches(f.selectedType, r.reportType)
  }

  function Shown(f: Inputs): Report -> bool {
    (r: Report) => Matches(r, f)
  }

  /** `filteredReports`. */
  function Filtered(reports: seq<Report>, f: Inputs): seq<Report> {
    Seqs.Filter(reports, Shown(f))
  }

  /** The "no documents found" block. */
  predicate ShowsNoResults(reports: seq<Report>, f: Inputs) {
    |Filtered(reports, f)| == 0
  }

  /** A document is listed exactly when the search, the year and the type
      tests all hold for it. */
  lemma {:induction false} ListedIff(reports: seq<Report>, f: Inputs, r: Report)
    ensures r in Filtered(reports, f) <==>
      r in reports && MatchesSearch(r, f.searchTerm) && YearMatches(f.selectedYear, r.date)
      && ChoiceMatches(f.selectedType, r.reportType)
  {
    Seqs.FilterMembership(reports, Shown(f), r);
  }

  /** The listed documents appear in catalogue order, and the count shown,
      "filtered of total", never exceeds the total. */
  lemma {:induction false} ListedInOrder(reports: seq<Report>, f: Inputs)
    ensures Seqs.IsSubsequence(Filtered(reports, f), reports)
    ensures |Filtered(reports, f)| <= |reports|
  {
    Seqs.FilterIsSubsequence(reports, Shown(f));
  }

  /** With the initial inputs every document is listed. */
  lemma {:induction false} InitialListsAll(reports: seq<Report>)
    ensures Filtered(reports, Initial) == reports
    ensures ShowsNoResults(reports, Initial) <==> reports == []
  {
    forall i | 0 <= i < |reports| ensures Shown(Initial)(reports[i]) {
      EmptySearchMatches(reports[i].title);
    }
    Seqs.FilterAllPass(reports, Shown(Initial));
  }

  /** On first load the page lists its whole catalogue, so the "no documents
      found" block is not shown. */
  lemma {:induction false} CatalogueListedAtFirst()
    ensures Filtered(Catalogue, Initial) == Catalogue
    ensures !ShowsNoResults(Catalogue, Initial)
  {
    InitialListsAll(Catalogue);
  }

  /** Choosing a year or a type, or typing a search term, only narrows the
      list: what is listed is a sub-sequence of what was listed with that
      input set back to its initial value. */
  lemma {:induction false} NarrowingOnly(reports: seq<Report>, f: Inputs)
    ensures Seqs.IsSubsequence(Filtered(reports, f), Filtered(reports, f.(selectedYear := All)))
    ensures Seqs.IsSubsequence(Filtered(reports, f), Filtered(reports, f.(selectedType := All)))
    ensures Seqs.IsSubsequence(Filtered(reports, f), Filtered(reports, f.(searchTerm := "")))
  {
    Seqs.FilterMonotone(reports, Shown(f), Shown(f.(selectedYear := All)));
    Seqs.FilterMonotone(reports, Shown(f), Shown(f.(selectedType := All)));
    forall r: Report | Shown(f)(r) ensures Shown(f.(searchTerm := ""))(r) {
      EmptySearchMatches(r.title);
    }
    Seqs.FilterMonotone(reports, Shown(f), Shown(f.(searchTerm := "")));
  }

  /** A search for a keyword of a document lists it, whatever the case of
      the term, when the year and type tests pass. */
  lemma {:induction false} KeywordFindsReport(reports: seq<Report>, f: Inputs, r: Report, k: nat)
    requires r in reports && k < |r.keywords|
    requires YearMatches(f.selectedYear, r.date) && ChoiceMatches(f.selectedType, r.reportType)
    requires ToLower(f.searchTerm) == ToLower(r.keywords[k])
    ensures r in Filtered(reports, f)
  {
    var kw := r.keywords[k];
    assert kw[0..|kw|] == kw;
    SearchFindsSubstring(kw, 0, |kw|);
    assert TextMatches(kw, f.searchTerm);
    ListedIff(reports, f, r);
  }

  /** Only documents of the chosen type are listed, and of the chosen year. */
  lemma {:induction false} ChosenTypeOnly(reports: seq<Report>, f: Inputs, r: Report)
    requires r in Filtered(reports, f)
    ensures f.selectedType != All ==> r.reportType == f.selectedType
    ensures f.selectedYear != All ==> exists i: nat :: OccursAt(r.date, f.selectedYear, i)
  {
    ListedIff(reports, f, r);
    if f.selectedYear != All {
      YearIsSubstring(f.selectedYear, r.date);
    }
  }
}
