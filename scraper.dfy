/**
 * The job-board scraper (scripts/scraper.py): it walks the listing pages in
 * order, turns each article into a record with placeholders for what is
 * missing, keeps only jobs whose URL is not yet known, and appends the new
 * records to the CSV file `data/search_engine.csv`. HTTP and HTML parsing
 * are replaced by what they deliver: per page a status code and the parsed
 * articles, per article the outcome of fetching its detail page.
 */
module Scraper {
  import opened Optional

  const Site: string := "https://id.jobstreet.com"
  const NoTitle: string := "Title not found"
  const NoCompany: string := "Company not found"
  const NoLocation: string := "Location not found"
  const NoSalary: string := "Not specified"
  const NoDate: string := "Date not found"
  const NoUrl: string := "URL not found"
  const NoLogo: string := "Logo not available"
  const NoJobType: string := "Tipe pekerjaan tidak tersedia"
  const NoDescription: string := "Deskripsi tidak tersedia"

  /** One row of the CSV file, column by column. */
  datatype Record = Record(
    title: string, company: string, location: string, salary: string, jobType: string,
    datePosted: string, url: string, companyLogo: string, description: string)

  /** The header row read back as if it were a record. */
  const HeaderRecord: Record :=
    Record("Title", "Company", "Location", "Salary", "JobType", "DatePosted", "URL", "CompanyLogo", "Description")

  /** An `img` element, with or without a `src` attribute. */
  datatype Img = Img(src: Option<string>)

  /**
   * A listing article: the stripped text of each element that was found,
   * the `href` of its first link, and its logo container (absent, or
   * holding an optional image).
   */
  datatype Article = Article(
    title: Option<string>, company: Option<string>, location: Option<string>,
    salary: Option<string>, datePosted: Option<string>, href: Option<string>,
    logo: Option<Option<Img>>)

  /** Fetching a detail page: it raised, or it answered with a status and the elements it holds. */
  datatype DetailPage = Raised | Fetched(status: int, workType: Option<string>, adDetails: Option<string>)

  /** An article together with the outcome of fetching its detail page. */
  datatype Listing = Listing(article: Article, detail: DetailPage)

  /** A listing page: its status code and its articles. */
  datatype Page = Page(status: int, listings: seq<Listing>)

  /**
   * `fetch_job_detail`: the work type and the description, each replaced by
   * its placeholder unless the page answered 200 and holds that element.
   */
  function FetchJobDetail(d: DetailPage): (r: (string, string))
    ensures d.Fetched? && d.status == 200 && d.workType.Some? ==> r.0 == d.workType.value
    ensures !(d.Fetched? && d.status == 200 && d.workType.Some?) ==> r.0 == NoJobType
    ensures d.Fetched? && d.status == 200 && d.adDetails.Some? ==> r.1 == d.adDetails.value
    ensures !(d.Fetched? && d.status == 200 && d.adDetails.Some?) ==> r.1 == NoDescription
  {
    match d
    case Raised => (NoJobType, NoDescription)
    case Fetched(status, workType, adDetails) =>
      if status == 200 then (workType.GetOr(NoJobType), adDetails.GetOr(NoDescription))
      else (NoJobType, NoDescription)
  }

  /** The job URL: the site followed by the link, or the placeholder for an article without a link. */
  function JobUrl(href: Option<string>): string {
    if href.Some? then Site + href.value else NoUrl
  }

  /** A job with a link never gets the placeholder URL, so only link-less jobs share it. */
  lemma LinkedUrlIsNotPlaceholder(href: string)
    ensures JobUrl(Some(href)) != NoUrl
    ensures JobUrl(Some(href))[..|Site|] == Site
  {
    assert JobUrl(Some(href))[0] == 'h' && NoUrl[0] == 'U';
  }

  /** The logo is the image's `src` when the container holds an image with one. */
  function LogoUrl(logo: Option<Option<Img>>): (r: string)
    ensures logo.Some? && logo.value.Some? && logo.value.value.src.Some? ==> r == logo.value.value.src.value
    ensures !(logo.Some? && logo.value.Some? && logo.value.value.src.Some?) ==> r == NoLogo
  {
    match logo
    case None => NoLogo
    case Some(container) =>
      match container
      case None => NoLogo
      case Some(img) => img.src.GetOr(NoLogo)
  }

  /**
   * The record built from one article. An article without a link has its
   * detail page requested at "URL not found", which is no URL, so the
   * request raises and the placeholders are used.
   */
  function RecordOf(l: Listing): Record {
    var a := l.article;
    var detail := FetchJobDetail(if a.href.Some? then l.detail else Raised);
    Record(
      a.title.GetOr(NoTitle), a.company.GetOr(NoCompany), a.location.GetOr(NoLocation),
      a.salary.GetOr(NoSalary), detail.0, a.datePosted.GetOr(NoDate),
      JobUrl(a.href), LogoUrl(a.logo), detail.1)
  }

  /**
   * Every field of a record is the article's value when the article has it
   * and the field's placeholder when it does not.
   */
  lemma RecordPlaceholders(l: Listing)
    ensures var r := RecordOf(l);
            && (l.article.title.None? ==> r.title == NoTitle)
            && (l.article.title.Some? ==> r.title == l.article.title.value)
            && (l.article.company.Some? ==> r.company == l.article.company.value)
            && (l.article.company.None? ==> r.company == NoCompany)
            && (l.article.location.Some? ==> r.location == l.article.location.value)
            && (l.article.location.None? ==> r.location == NoLocation)
            && (l.article.salary.Some? ==> r.salary == l.article.salary.value)
            && (l.article.salary.None? ==> r.salary == NoSalary)
            && (l.article.datePosted.Some? ==> r.datePosted == l.article.datePosted.value)
            && (l.article.datePosted.None? ==> r.datePosted == NoDate)
            && (l.article.href.Some? ==> r.url == Site + l.article.href.value && r.url != NoUrl)
            && (l.article.href.None? <==> r.url == NoUrl)
            && (l.article.href.None? ==> r.jobType == NoJobType && r.description == NoDescription)
  {
    if l.article.href.Some? {
      LinkedUrlIsNotPlaceholder(l.article.href.value);
    }
  }

  /** The records of a page's articles, in page order. */
  function RecordsOf(ls: seq<Listing>): (r: seq<Record>)
    ensures |r| == |ls| && forall i :: 0 <= i < |ls| ==> r[i] == RecordOf(ls[i])
  {
    seq(|ls|, i requires 0 <= i < |ls| => RecordOf(ls[i]))
  }

  /** The records of all articles of the given pages, page after page. */
  function PagesRecords(ps: seq<Page>): seq<Record> {
    if ps == [] then [] else PagesRecords(ps[..|ps| - 1]) + RecordsOf(ps[|ps| - 1].listings)
  }

  /** The URLs of the records. */
  function Urls(rs: seq<Record>): set<string> {
    if rs == [] then {} else Urls(rs[..|rs| - 1]) + {rs[|rs| - 1].url}
  }

  lemma {:induction false} UrlsMembers(rs: seq<Record>)
    ensures forall u :: u in Urls(rs) <==> exists i :: 0 <= i < |rs| && rs[i].url == u
  {
    if rs != [] {
      UrlsMembers(rs[..|rs| - 1]);
      forall u ensures u in Urls(rs) <==> exists i :: 0 <= i < |rs| && rs[i].url == u {
        if u in Urls(rs[..|rs| - 1]) {
          var i :| 0 <= i < |rs| - 1 && rs[..|rs| - 1][i].url == u;
          assert rs[i].url == u;
        }
        if exists i :: 0 <= i < |rs| && rs[i].url == u {
          var i :| 0 <= i < |rs| && rs[i].url == u;
          if i < |rs| - 1 {
            assert rs[..|rs| - 1][i].url == u;
          }
        }
      }
    }
  }

  lemma {:induction false} UrlsAppend(a: seq<Record>, b: seq<Record>)
    ensures Urls(a + b) == Urls(a) + Urls(b)
    decreases |b|
  {
    if b == [] {
      assert a + b == a;
    } else {
      assert (a + b)[..|a + b| - 1] == a + b[..|b| - 1];
      UrlsAppend(a, b[..|b| - 1]);
    }
  }

  /**
   * The dedup of `scrape_jobs`: a record is kept when its URL is neither
   * known beforehand nor the URL of a record kept earlier.
   */
  function NewRecords(rs: seq<Record>, known: set<string>): seq<Record> {
    if rs == [] then []
    else
      var kept := NewRecords(rs[..|rs| - 1], known);
      var r := rs[|rs| - 1];
      if r.url in known || r.url in Urls(kept) then kept else kept + [r]
  }

  /** No URL occurs twice. */
  predicate UniqueUrls(rs: seq<Record>) {
    forall i, j :: 0 <= i < j < |rs| ==> rs[i].url != rs[j].url
  }

  /** `a` is `b` with some elements left out, the rest in their order. */
  predicate Subsequence(a: seq<Record>, b: seq<Record>)
    decreases |b|
  {
    || a == []
    || (b != [] && a != [] && a[|a| - 1] == b[|b| - 1] && Subsequence(a[..|a| - 1], b[..|b| - 1]))
    || (b != [] && Subsequence(a, b[..|b| - 1]))
  }

  /** A run never keeps the same URL twice. */
  lemma {:induction false} NewRecordsUnique(rs: seq<Record>, known: set<string>)
    ensures UniqueUrls(NewRecords(rs, known))
  {
    if rs != [] {
      var kept := NewRecords(rs[..|rs| - 1], known);
      NewRecordsUnique(rs[..|rs| - 1], known);
      UrlsMembers(kept);
    }
  }

  /** A run never keeps a URL that was known beforehand. */
  lemma {:induction false} NewRecordsFresh(rs: seq<Record>, known: set<string>)
    ensures forall r :: r in NewRecords(rs, known) ==> r.url !in known
  {
    if rs != [] {
      NewRecordsFresh(rs[..|rs| - 1], known);
    }
  }

  /** The kept records are the scraped ones with some left out, in scraping order. */
  lemma {:induction false} NewRecordsInOrder(rs: seq<Record>, known: set<string>)
    ensures Subsequence(NewRecords(rs, known), rs)
  {
    if rs != [] {
      var kept := NewRecords(rs[..|rs| - 1], known);
      NewRecordsInOrder(rs[..|rs| - 1], known);
      var r := rs[|rs| - 1];
      if !(r.url in known || r.url in Urls(kept)) {
        assert (kept + [r])[..|kept|] == kept;
      }
    }
  }

  /** Every scraped URL ends up either known beforehand or kept. */
  lemma {:induction false} NewRecordsComplete(rs: seq<Record>, known: set<string>)
    ensures forall i :: 0 <= i < |rs| ==> rs[i].url in known || rs[i].url in Urls(NewRecords(rs, known))
  {
    if rs != [] {
      var kept := NewRecords(rs[..|rs| - 1], known);
      NewRecordsComplete(rs[..|rs| - 1], known);
      var r := rs[|rs| - 1];
      if !(r.url in known || r.url in Urls(kept)) {
        assert (kept + [r])[..|kept|] == kept;
      }
      forall i | 0 <= i < |rs| - 1 ensures rs[i].url in known || rs[i].url in Urls(NewRecords(rs, known)) {
        assert rs[..|rs| - 1][i] == rs[i];
      }
    }
  }

  /** Deduplicating page after page is deduplicating the whole run, the URLs kept so far counting as known. */
  lemma {:induction false} NewRecordsAppend(a: seq<Record>, b: seq<Record>, known: set<string>)
    ensures NewRecords(a + b, known) == NewRecords(a, known) + NewRecords(b, known + Urls(NewRecords(a, known)))
    decreases |b|
  {
    var ka := NewRecords(a, known);
    if b == [] {
      assert a + b == a;
    } else {
      var b' := b[..|b| - 1];
      assert (a + b)[..|a + b| - 1] == a + b';
      NewRecordsAppend(a, b', known);
      UrlsAppend(ka, NewRecords(b', known + Urls(ka)));
    }
  }

  /** A page lets the scraper go on when it answered 200 and has articles. */
  predicate Continues(p: Page) {
    p.status == 200 && p.listings != []
  }

  /** The index of the page the scraper stops at, or `|ps|` if it does not stop within `ps`. */
  function FirstStop(ps: seq<Page>): (k: nat)
    ensures k <= |ps|
    ensures k < |ps| ==> !Continues(ps[k])
    ensures forall i :: 0 <= i < k ==> Continues(ps[i])
  {
    if ps == [] then 0
    else if !Continues(ps[0]) then 0
    else 1 + FirstStop(ps[1..])
  }

  /** What a line of the CSV file holds. */
  datatype Line = HeaderLine | RowLine(row: Record)

  /** How `save_to_csv` opens the file. */
  datatype Mode = Append | Write

  function RowLines(data: seq<Record>): (r: seq<Line>)
    ensures |r| == |data| && forall i :: 0 <= i < |data| ==> r[i] == RowLine(data[i])
  {
    seq(|data|, i requires 0 <= i < |data| => RowLine(data[i]))
  }

  function RecordOfLine(l: Line): Record {
    match l
    case HeaderLine => HeaderRecord
    case RowLine(row) => row
  }

  /** What a CSV reader yields: the first line names the columns, every later line is a row. */
  function Rows(lines: seq<Line>): (r: seq<Record>)
    ensures lines == [] ==> r == []
    ensures lines != [] ==> |r| == |lines| - 1 && forall i :: 1 <= i < |lines| ==> r[i - 1] == RecordOfLine(lines[i])
  {
    if lines == [] then [] else seq(|lines| - 1, i requires 0 <= i < |lines| - 1 => RecordOfLine(lines[i + 1]))
  }

  /** Rows appended after a first line read back as themselves. */
  lemma RowsAfterAppend(lines: seq<Line>, data: seq<Record>)
    requires lines != []
    ensures Rows(lines + RowLines(data)) == Rows(lines) + data
  {
    var all := lines + RowLines(data);
    forall i | 0 <= i < |Rows(all)| ensures Rows(all)[i] == (Rows(lines) + data)[i] {
      if i < |lines| - 1 {
        assert all[i + 1] == lines[i + 1];
      } else {
        assert all[i + 1] == RowLine(data[i - (|lines| - 1)]);
      }
    }
  }

  /** The scraper's CSV file, `data/search_engine.csv`. */
  class CsvFile {
    /** Whether the file is on disk. */
    var onDisk: bool
    var lines: seq<Line>

    /** A file that is not on disk has no lines. */
    predicate Valid()
      reads this
    {
      !onDisk ==> lines == []
    }

    /** A file on disk starts with the header, and only its first line is one. */
    predicate WellFormed()
      reads this
    {
      onDisk ==> lines != [] && lines[0] == HeaderLine && forall i :: 1 <= i < |lines| ==> lines[i].RowLine?
    }

    constructor (initial: Option<seq<Line>>)
      ensures Valid()
      ensures initial.None? ==> !onDisk && lines == []
      ensures initial.Some? ==> onDisk && lines == initial.value
    {
      if initial.Some? {
        onDisk := true;
        lines := initial.value;
      } else {
        onDisk := false;
        lines := [];
      }
    }

    /**
     * `save_to_csv`: the header is written when the file did not exist
     * beforehand, or in write mode, which empties the file first; then one
     * line per record.
     */
    method Save(data: seq<Record>, mode: Mode)
      requires Valid()
      modifies this
      ensures Valid() && onDisk
      ensures lines == (if mode == Write then [] else old(lines))
                       + (if !old(onDisk) || mode == Write then [HeaderLine] else [])
                       + RowLines(data)
    {
      var existed := onDisk;
      if mode == Write {
        lines := [];
      }
      onDisk := true;
      if !existed || (mode == Write && |lines| == 0) {
        lines := lines + [HeaderLine];
      }
      ghost var start := lines;
      assert start == (if mode == Write then [] else old(lines)) + (if !old(onDisk) || mode == Write then [HeaderLine] else []);
      for i := 0 to |data|
        invariant onDisk && lines == start + RowLines(data[..i])
      {
        assert RowLines(data[..i + 1]) == RowLines(data[..i]) + [RowLine(data[i])];
        lines := lines + [RowLine(data[i])];
      }
      assert data[..|data|] == data;
    }
  }

  /** Appending keeps a well-formed file well-formed and its rows read back in order. */
  lemma AppendKeepsHeader(lines: seq<Line>, existed: bool, data: seq<Record>)
    requires existed ==> lines != [] && lines[0] == HeaderLine && forall i :: 1 <= i < |lines| ==> lines[i].RowLine?
    requires !existed ==> lines == []
    ensures var after := lines + (if !existed then [HeaderLine] else []) + RowLines(data);
            && after != [] && after[0] == HeaderLine
            && (forall i :: 1 <= i < |after| ==> after[i].RowLine?)
            && Rows(after) == Rows(lines) + data
  {
    var after := lines + (if !existed then [HeaderLine] else []) + RowLines(data);
    RowsAfterAppend(lines + (if !existed then [HeaderLine] else []), data);
  }

  /** An entry of the known-URL dictionary: a row read from the file, or a mark for a URL saved in this run. */
  datatype Entry = Loaded(row: Record) | Seen

  /** The cells of a row in column order; those of the header are the column names. */
  function Cells(r: Record): (c: seq<string>)
    ensures |c| == 9 && c[6] == r.url
  {
    [r.title, r.company, r.location, r.salary, r.jobType, r.datePosted, r.url, r.companyLogo, r.description]
  }

  /**
   * The column `row['URL']` reads when the first line of the file holds
   * `names`: the reader pairs names with cells, so the last "URL" wins, and
   * there is none when no name is "URL".
   */
  function UrlColumn(names: seq<string>): (col: Option<nat>)
    ensures col.Some? ==> col.value < |names| && names[col.value] == "URL"
                          && forall j :: col.value < j < |names| ==> names[j] != "URL"
    ensures col.None? ==> forall j :: 0 <= j < |names| ==> names[j] != "URL"
  {
    if names == [] then None
    else if names[|names| - 1] == "URL" then Some(|names| - 1)
    else UrlColumn(names[..|names| - 1])
  }

  /** The key of a row in column `col`. */
  function Key(r: Record, col: nat): string
    requires col < 9
  {
    Cells(r)[col]
  }

  /** The keys of the rows, read from column `col`. */
  function Column(rows: seq<Record>, col: nat): set<string>
    requires col < 9
  {
    if rows == [] then {} else Column(rows[..|rows| - 1], col) + {Key(rows[|rows| - 1], col)}
  }

  /** Column 6 holds the URL. */
  lemma {:induction false} UrlColumnIsUrls(rows: seq<Record>)
    ensures Column(rows, 6) == Urls(rows)
  {
    if rows != [] {
      UrlColumnIsUrls(rows[..|rows| - 1]);
    }
  }

  /** Each key of the rows, read from column `col`, with the last row that has it. */
  function LastByColumn(rows: seq<Record>, col: nat): map<string, Entry>
    requires col < 9
  {
    if rows == [] then map[]
    else LastByColumn(rows[..|rows| - 1], col)[Key(rows[|rows| - 1], col) := Loaded(rows[|rows| - 1])]
  }

  /** The keys are the rows' keys, and each maps to the last row with that key. */
  lemma {:induction false} LastByColumnIsLast(rows: seq<Record>, col: nat)
    requires col < 9
    ensures LastByColumn(rows, col).Keys == Column(rows, col)
    ensures forall i :: 0 <= i < |rows| && (forall j :: i < j < |rows| ==> Key(rows[j], col) != Key(rows[i], col)) ==>
              Key(rows[i], col) in LastByColumn(rows, col) && LastByColumn(rows, col)[Key(rows[i], col)] == Loaded(rows[i])
  {
    if rows != [] {
      var init := rows[..|rows| - 1];
      LastByColumnIsLast(init, col);
      forall i | 0 <= i < |rows| - 1 && (forall j :: i < j < |rows| ==> Key(rows[j], col) != Key(rows[i], col))
        ensures Key(rows[i], col) in LastByColumn(rows, col) && LastByColumn(rows, col)[Key(rows[i], col)] == Loaded(rows[i])
      {
        assert init[i] == rows[i];
        assert forall j :: i < j < |init| ==> Key(init[j], col) != Key(init[i], col) by {
          forall j | i < j < |init| ensures Key(init[j], col) != Key(init[i], col) {
            assert init[j] == rows[j];
          }
        }
      }
    }
  }

  /**
   * What `load_existing_jobs` returns for a file with these lines (no lines
   * for a file that does not exist): each data row keyed by the column the
   * first line names "URL", or None when that lookup raises KeyError, which
   * happens at the first data row when no cell of the first line is "URL".
   */
  function ReadExisting(lines: seq<Line>): Option<map<string, Entry>> {
    if lines == [] then Some(map[])
    else
      match UrlColumn(Cells(RecordOfLine(lines[0])))
      case None => if |lines| == 1 then Some(map[]) else None
      case Some(col) => Some(LastByColumn(Rows(lines), col))
  }

  /** A file that starts with the header is read by URL: the keys are the URLs of its rows. */
  lemma HeaderedFileKeysUrls(lines: seq<Line>)
    requires lines != [] && lines[0] == HeaderLine
    ensures ReadExisting(lines) == Some(LastByColumn(Rows(lines), 6))
    ensures ReadExisting(lines).value.Keys == Urls(Rows(lines))
  {
    var names := Cells(HeaderRecord);
    assert names[6] == "URL";
    assert forall j :: 0 <= j < 9 && j != 6 ==> names[j] != "URL";
    LastByColumnIsLast(Rows(lines), 6);
    UrlColumnIsUrls(Rows(lines));
  }

  /**
   * A file whose first line is a data row with no "URL" cell, followed by
   * more rows, makes the load raise. Appending to a file that exists but is
   * empty writes no header, so it leaves such a file.
   */
  lemma HeaderlessFileRaises(data: seq<Record>)
    requires |data| >= 2 && forall j :: 0 <= j < 9 ==> Cells(data[0])[j] != "URL"
    ensures ReadExisting([] + [] + RowLines(data)) == None
  {
    assert RowLines(data)[0] == RowLine(data[0]);
  }

  /** `load_existing_jobs`: the rows of the file, keyed by their URL cell, a later row replacing an earlier one. */
  method LoadExistingJobs(file: CsvFile) returns (existing: Option<map<string, Entry>>)
    requires file.Valid()
    ensures existing == ReadExisting(file.lines)
  {
    if !file.onDisk || file.lines == [] {
      return Some(map[]);
    }
    var lines := file.lines;
    var col := UrlColumn(Cells(RecordOfLine(lines[0])));
    var rows := Rows(lines);
    if col.None? {
      if rows != [] {
        return None;
      }
      return Some(map[]);
    }
    var loaded := map[];
    for i := 0 to |rows|
      invariant loaded == LastByColumn(rows[..i], col.value)
    {
      assert rows[..i + 1][..i] == rows[..i];
      loaded := loaded[Key(rows[i], col.value) := Loaded(rows[i])];
    }
    assert rows[..|rows|] == rows;
    return Some(loaded);
  }

  /**
   * The article loop of one page: each record whose URL is not a key yet is
   * kept and its URL becomes a key.
   */
  method ScrapePage(listings: seq<Listing>, existing: map<string, Entry>)
    returns (jobsData: seq<Record>, existing': map<string, Entry>)
    ensures jobsData == NewRecords(RecordsOf(listings), existing.Keys)
    ensures existing'.Keys == existing.Keys + Urls(jobsData)
  {
    ghost var records := RecordsOf(listings);
    jobsData := [];
    existing' := existing;
    for j := 0 to |listings|
      invariant jobsData == NewRecords(records[..j], existing.Keys)
      invariant existing'.Keys == existing.Keys + Urls(jobsData)
    {
      var record := RecordOf(listings[j]);
      DedupStep(records, j, existing.Keys, jobsData, existing'.Keys);
      if record.url !in existing' {
        jobsData := jobsData + [record];
        existing' := existing'[record.url := Seen];
      }
    }
    assert records[..|listings|] == records;
  }

  /** One article of the dedup loop: its record is kept exactly when its URL is not known yet. */
  lemma DedupStep(rs: seq<Record>, j: nat, known: set<string>, kept: seq<Record>, keys: set<string>)
    requires j < |rs| && kept == NewRecords(rs[..j], known)
    requires keys == known + Urls(kept)
    ensures rs[j].url in keys ==> NewRecords(rs[..j + 1], known) == kept
    ensures rs[j].url !in keys ==> NewRecords(rs[..j + 1], known) == kept + [rs[j]]
                                   && keys + {rs[j].url} == known + Urls(kept + [rs[j]])
  {
    assert rs[..j + 1][..j] == rs[..j];
    assert (kept + [rs[j]])[..|kept|] == kept;
  }

  /** The records a run saves, given the pages it sees and the URLs it knows at the start. */
  function RunRecords(pages: seq<Page>, known: set<string>): seq<Record> {
    NewRecords(PagesRecords(pages[..FirstStop(pages)]), known)
  }

  /**
   * The file after a run has saved `saved`: what was there before, the
   * header if the file was not on disk and something was saved, then the
   * saved records.
   */
  predicate Appended(before: seq<Line>, existed: bool, saved: seq<Record>, onDisk: bool, lines: seq<Line>) {
    && onDisk == (existed || saved != [])
    && lines == before + (if !existed && saved != [] then [HeaderLine] else []) + RowLines(saved)
  }

  /** Saving a page's records in append mode extends what the run has saved by exactly those records. */
  lemma SaveStep(
    before: seq<Line>, existed: bool, saved: seq<Record>, onDisk: bool, lines: seq<Line>, jobsData: seq<Record>)
    requires Appended(before, existed, saved, onDisk, lines)
    requires jobsData != []
    ensures Appended(before, existed, saved + jobsData, true,
                     lines + (if !onDisk then [HeaderLine] else []) + RowLines(jobsData))
  {
    assert RowLines(saved + jobsData) == RowLines(saved) + RowLines(jobsData);
  }

  /** The page numbers requested when the first `n` pages have been asked for. */
  function PageNumbers(n: nat): (r: seq<nat>)
    ensures |r| == n && forall i :: 0 <= i < n ==> r[i] == i + 1
  {
    seq(n, i requires 0 <= i < n => i + 1)
  }

  lemma PageNumbersStep(n: nat)
    ensures PageNumbers(n + 1) == PageNumbers(n) + [n + 1]
  {
  }

  /** A page that stops the scraper at or before the first stop is the first stop. */
  lemma AtStop(pages: seq<Page>, k: nat)
    requires k <= FirstStop(pages) < |pages| && !Continues(pages[k])
    ensures k == FirstStop(pages)
  {
  }

  /** A page that lets the scraper go on lies before the page it stops at. */
  lemma BeforeStop(pages: seq<Page>, k: nat)
    requires k <= FirstStop(pages) < |pages| && Continues(pages[k])
    ensures k < FirstStop(pages)
  {
  }

  /**
   * After page `p`, the run has saved its earlier records followed by those
   * the page adds, and the known URLs grow by the URLs of the added records.
   */
  lemma PageStep(
    pages: seq<Page>, p: nat, known: set<string>, saved: seq<Record>, jobsData: seq<Record>,
    keys: set<string>, keys': set<string>)
    requires p < |pages|
    requires saved == NewRecords(PagesRecords(pages[..p]), known)
    requires keys == known + Urls(saved)
    requires jobsData == NewRecords(RecordsOf(pages[p].listings), keys)
    requires keys' == keys + Urls(jobsData)
    ensures saved + jobsData == NewRecords(PagesRecords(pages[..p + 1]), known)
    ensures keys' == known + Urls(saved + jobsData)
  {
    PagesRecordsStep(pages, p);
    NewRecordsAppend(PagesRecords(pages[..p]), RecordsOf(pages[p].listings), known);
    UrlsAppend(saved, jobsData);
  }

  lemma PagesRecordsStep(pages: seq<Page>, p: nat)
    requires p < |pages|
    ensures PagesRecords(pages[..p + 1]) == PagesRecords(pages[..p]) + RecordsOf(pages[p].listings)
  {
    assert pages[..p + 1][..p] == pages[..p];
  }

  /**
   * One page's share of `scrape_jobs`: the new records of the page are
   * collected and, when there are any, appended to the file.
   */
  method SavePage(
    file: CsvFile, listings: seq<Listing>, existing: map<string, Entry>,
    ghost before: seq<Line>, ghost existed: bool, ghost saved: seq<Record>)
    returns (jobsData: seq<Record>, existing': map<string, Entry>)
    requires file.Valid() && Appended(before, existed, saved, file.onDisk, file.lines)
    modifies file
    ensures jobsData == NewRecords(RecordsOf(listings), existing.Keys)
    ensures existing'.Keys == existing.Keys + Urls(jobsData)
    ensures file.Valid() && Appended(before, existed, saved + jobsData, file.onDisk, file.lines)
  {
    jobsData, existing' := ScrapePage(listings, existing);
    if jobsData != [] {
      SaveStep(before, existed, saved, file.onDisk, file.lines, jobsData);
      file.Save(jobsData, Append);
    } else {
      assert saved + jobsData == saved;
    }
  }

  /**
   * The page loop of `scrape_jobs`, from page 1 on, with the URLs of the
   * file already loaded into `existing`.
   */
  method ScrapePages(
    file: CsvFile, pages: seq<Page>, existing: map<string, Entry>, ghost before: seq<Line>, ghost existed: bool)
    returns (total: nat, requested: seq<nat>)
    requires FirstStop(pages) < |pages|
    requires file.Valid() && Appended(before, existed, [], file.onDisk, file.lines)
    modifies file
    ensures requested == PageNumbers(FirstStop(pages) + 1)
    ensures total == |RunRecords(pages, existing.Keys)|
    ensures file.Valid() && Appended(before, existed, RunRecords(pages, existing.Keys), file.onDisk, file.lines)
  {
    var page: nat := 1;
    total := 0;
    requested := [];
    var known := existing;
    ghost var saved: seq<Record> := [];
    ghost var stop := FirstStop(pages);
    while true
      invariant 1 <= page <= stop + 1
      invariant requested == PageNumbers(page - 1)
      invariant saved == NewRecords(PagesRecords(pages[..page - 1]), existing.Keys)
      invariant known.Keys == existing.Keys + Urls(saved)
      invariant total == |saved|
      invariant file.Valid() && Appended(before, existed, saved, file.onDisk, file.lines)
      decreases |pages| - page
    {
      PageNumbersStep(page - 1);
      requested := requested + [page];
      var current := pages[page - 1];
      if current.status != 200 || current.listings == [] {
        AtStop(pages, page - 1);
        assert page == stop + 1;
        assert requested == PageNumbers(stop + 1);
        assert saved == RunRecords(pages, existing.Keys);
        break;
      }
      BeforeStop(pages, page - 1);
      var jobsData, known';
      jobsData, known' := SavePage(file, current.listings, known, before, existed, saved);
      PageStep(pages, page - 1, existing.Keys, saved, jobsData, known.Keys, known'.Keys);
      known := known';
      total := total + |jobsData|;
      saved := saved + jobsData;
      page := page + 1;
    }
  }

  /**
   * `scrape_jobs`: the URLs of the file are loaded, then pages 1, 2, 3, ...
   * are requested until one answers with another status than 200 or has no
   * articles; each page's new records are appended to the file and counted.
   * When loading raises, nothing is requested and the file stays as it was.
   */
  method ScrapeJobs(file: CsvFile, pages: seq<Page>) returns (raised: bool, total: nat, requested: seq<nat>)
    requires file.Valid() && FirstStop(pages) < |pages|
    modifies file
    ensures raised <==> ReadExisting(old(file.lines)).None?
    ensures old(file.WellFormed()) ==> !raised && ReadExisting(old(file.lines)).value.Keys == Urls(Rows(old(file.lines)))
    ensures raised ==> total == 0 && requested == [] && file.onDisk == old(file.onDisk) && file.lines == old(file.lines)
    ensures !raised ==> requested == PageNumbers(FirstStop(pages) + 1)
    ensures !raised ==>
              var run := RunRecords(pages, ReadExisting(old(file.lines)).value.Keys);
              && total == |run|
              && file.Valid() && Appended(old(file.lines), old(file.onDisk), run, file.onDisk, file.lines)
  {
    if file.lines != [] && file.lines[0] == HeaderLine {
      HeaderedFileKeysUrls(file.lines);
    }
    var existing := LoadExistingJobs(file);
    if existing.None? {
      return true, 0, [];
    }
    raised := false;
    total, requested := ScrapePages(file, pages, existing.value, file.lines, file.onDisk);
  }
}
