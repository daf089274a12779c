/** The recommendations screen: the session gate, the label shown for each
    recommendation type, the ten-cell progress bar, and the text rendered for
    the list of recommendations returned by the datastore, with its per-status
    counts. */
module Recommendations {
  import opened JavaLang
  import opened Storage

  // ---------------------------------------------------------------------------
  // Texts of the screen
  // ---------------------------------------------------------------------------

  const LOGIN_FIRST: string := "Please login first"
  const LOADING_FAILED: string := "Eroare la încărcarea recomandărilor: "
  const HEADER_TITLE: string := "🏥 RECOMANDĂRILE TALE MEDICALE\n"
  const DOUBLE_RULE: string := "═══════════════════════════════════════\n"
  const SINGLE_RULE: string := "───────────────────────────────────────\n"
  const BLOCK_TITLE: string := "📋 RECOMANDAREA #"
  const DESCRIPTION_LABEL: string := "💡 Descriere: "
  const TYPE_LABEL: string := "🏷️  Tip: "
  const ACTIVE_ICON: string := "🟢"
  const COMPLETED_ICON: string := "✅"
  const ACTIVE_TEXT: string := "ACTIVĂ"
  const COMPLETED_TEXT: string := "COMPLETATĂ"
  const STATUS_LABEL: string := " Status: "
  const PROGRESS_LABEL: string := "📊 Progres: "
  const DOCTOR_LABEL: string := "👨‍⚕️ Medic ID: "
  const CREATED_LABEL: string := "📅 Data creării: "
  const SUMMARY_TITLE: string := "📈 SUMAR RECOMANDĂRI\n"
  const ACTIVE_LABEL: string := "🟢 Active: "
  const COMPLETED_LABEL: string := "✅ Completate: "
  const TOTAL_LABEL: string := "📊 Total: "
  const TIPS_TITLE: string := "💡 SFATURI GENERALE DE SĂNĂTATE\n"

  /** The heading of the personal listing. */
  const HEADER: string := HEADER_TITLE + DOUBLE_RULE + "\n"

  /** The general advice closing the personal listing. */
  const TIPS: string :=
    TIPS_TITLE + DOUBLE_RULE +
    "• Urmați cu atenție recomandările medicale\n" + "• Băți minim 2 litri de apă pe zi\n" + "• Dormiți 7-8 ore pe noapte\n" +
    "• Exerciții fizice regulate\n" + "• Evitați stresul\n" + "• Control medical periodic\n"

  /** The default text shown when there is no personal recommendation. */
  const LOCAL_TEXT: string :=
    "🏥 RECOMANDĂRI MEDICALE GENERALE\n" +
    "═══════════════════════════════════════\n\n" +
    "📋 Nu s-au găsit recomandări personalizate.\n\n" +
    "💡 SFATURI GENERALE DE SĂNĂTATE:\n" +
    "───────────────────────────────────────\n" +
    "1. 🚶 30 de minute de mișcare zilnic\n" +
    "2. 🥗 Dietă echilibrată cu reducere de sare\n" +
    "3. 💧 Minim 2 litri de apă pe zi\n" +
    "4. 😴 7-8 ore de somn pe noapte\n" +
    "5. 🩺 Măsurare regulată a tensiunii\n" +
    "6. 😌 Evitare stres\n" +
    "7. 👨‍⚕️ Control medical lunar\n\n" +
    "═══════════════════════════════════════\n" +
    "📞 Contactați medicul pentru recomandări personalizate."

  // ---------------------------------------------------------------------------
  // The session gate
  // ---------------------------------------------------------------------------

  /** Where the screen goes when it opens; a redirect shows a toast. */
  datatype Entry = RedirectToLogin(toast: string) | LoadFor(patientId: string)

  /** Without a stored user id the screen asks the user to log in first and
      sends them to the login screen; otherwise it queries the
      recommendations whose patient id is the stored id. */
  function OpenRecommendations(prefs: Prefs): (e: Entry)
    ensures e.RedirectToLogin? <==> USER_ID !in prefs || prefs[USER_ID] == ""
    ensures e.RedirectToLogin? ==> e.toast == LOGIN_FIRST
    ensures e.LoadFor? ==> e.patientId == prefs[USER_ID] != ""
  {
    var id := GetString(prefs, USER_ID);
    if id == "" then RedirectToLogin(LOGIN_FIRST) else LoadFor(id)
  }

  // ---------------------------------------------------------------------------
  // Recommendation types
  // ---------------------------------------------------------------------------

  /** The known type codes, lower case, with the label each is shown as. */
  const KNOWN_TYPES: seq<(string, string)> := [
    ("stil-viata", "Stil de viață"),
    ("medicatie", "Medicație"),
    ("exercitii", "Exerciții"),
    ("dieta", "Dietă"),
    ("control", "Control medical")
  ]

  /** `formatRecommendationType`: a code matching a known one regardless of
      case is shown as its label; any other code is shown as given, keeping
      its case. */
  function FormatType(code: string): (shown: string)
    ensures forall i :: 0 <= i < |KNOWN_TYPES| && ToLowerCase(code) == KNOWN_TYPES[i].0 ==>
              shown == KNOWN_TYPES[i].1
    ensures (forall i :: 0 <= i < |KNOWN_TYPES| ==> ToLowerCase(code) != KNOWN_TYPES[i].0) ==>
              shown == code
  {
    var lower := ToLowerCase(code);
    assert KNOWN_TYPES[0].0 == "stil-viata" && KNOWN_TYPES[1].0 == "medicatie";
    assert KNOWN_TYPES[2].0 == "exercitii" && KNOWN_TYPES[3].0 == "dieta" && KNOWN_TYPES[4].0 == "control";
    if lower == "stil-viata" then "Stil de viață"
    else if lower == "medicatie" then "Medicație"
    else if lower == "exercitii" then "Exerciții"
    else if lower == "dieta" then "Dietă"
    else if lower == "control" then "Control medical"
    else code
  }

  /** Two codes that differ only in the case of ASCII letters get the same
      label when they are known. */
  lemma FormatTypeIgnoresCase(a: string, b: string, i: nat)
    requires i < |KNOWN_TYPES| && ToLowerCase(a) == KNOWN_TYPES[i].0
    requires ToLowerCase(b) == ToLowerCase(a)
    ensures FormatType(a) == FormatType(b) == KNOWN_TYPES[i].1
  {
  }

  // ---------------------------------------------------------------------------
  // The progress bar
  // ---------------------------------------------------------------------------

  const BAR_OPEN: string := "🔋 ["
  const BAR_CLOSE: string := "]\n"
  const FULL_CELL: char := '█'
  const EMPTY_CELL: char := '░'
  const BAR_CELLS: nat := 10

  /** `(int) (progres / 10)`: a truncating long division, then a narrowing
      cast that keeps the low 32 bits. */
  function BarThreshold(progress: Long): Int {
    ToInt(JavaDiv(progress, 10))
  }

  /** The ten cells: cell `i` is full when `i` is below the threshold. */
  function Cells(threshold: int): string {
    seq(BAR_CELLS, i requires 0 <= i < BAR_CELLS => if i < threshold then FULL_CELL else EMPTY_CELL)
  }

  /** The bar for a percentage. */
  function ProgressBar(progress: Long): string {
    BAR_OPEN + Cells(BarThreshold(progress)) + BAR_CLOSE
  }

  /** `n` copies of `c`. */
  function Repeat(c: char, n: nat): (s: string)
    ensures |s| == n && forall i :: 0 <= i < n ==> s[i] == c
  {
    seq(n, _ => c)
  }

  /** How many cells are full: the threshold clamped to 0..10. */
  function FilledCells(progress: Long): (k: nat)
    ensures k <= BAR_CELLS
  {
    var t := BarThreshold(progress);
    if t <= 0 then 0 else if t >= BAR_CELLS then BAR_CELLS else t
  }

  /** The bar always has ten cells between its brackets, the full ones first
      and then the empty ones, and as many full cells as `FilledCells` says. */
  lemma ProgressBarShape(progress: Long)
    ensures var bar := ProgressBar(progress);
      && |bar| == |BAR_OPEN| + BAR_CELLS + |BAR_CLOSE|
      && bar[..|BAR_OPEN|] == BAR_OPEN
      && bar[|BAR_OPEN| + BAR_CELLS..] == BAR_CLOSE
      && bar[|BAR_OPEN|..|BAR_OPEN| + BAR_CELLS]
           == Repeat(FULL_CELL, FilledCells(progress)) + Repeat(EMPTY_CELL, BAR_CELLS - FilledCells(progress))
  {
    var bar := ProgressBar(progress);
    var k := FilledCells(progress);
    var cells := Cells(BarThreshold(progress));
    assert bar[|BAR_OPEN|..|BAR_OPEN| + BAR_CELLS] == cells;
    var expected := Repeat(FULL_CELL, k) + Repeat(EMPTY_CELL, BAR_CELLS - k);
    assert forall i :: 0 <= i < BAR_CELLS ==> cells[i] == expected[i];
  }

  /** While the quotient fits in an `int`, the number of full cells is the
      percentage divided by ten, clamped: none below 10 (negatives included),
      all ten from 100 on. */
  lemma FilledCellsOfPercentage(progress: Long)
    requires -21_474_836_490 < progress < 21_474_836_480
    ensures progress < 10 ==> FilledCells(progress) == 0
    ensures progress >= 100 ==> FilledCells(progress) == BAR_CELLS
    ensures 10 <= progress < 100 ==> FilledCells(progress) == progress / 10
  {
    var q := JavaDiv(progress, 10);
    assert INT_MIN <= q <= INT_MAX;
  }

  /** Past the range of `int` the cast wraps: a progress of 42 949 673 000
      fills only four cells. */
  lemma FilledCellsWrap()
    ensures FilledCells(42_949_673_000) == 4
  {
    assert JavaDiv(42_949_673_000, 10) == 4_294_967_300;
  }

  /** The loop of the screen that builds the bar one cell at a time. */
  method BuildProgressBar(progress: Long) returns (bar: string)
    ensures bar == ProgressBar(progress)
  {
    var threshold := BarThreshold(progress);
    bar := BAR_OPEN;
    var i := 0;
    while i < BAR_CELLS
      invariant 0 <= i <= BAR_CELLS
      invariant bar == BAR_OPEN + Cells(threshold)[..i]
    {
      if i < threshold {
        bar := bar + [FULL_CELL];
      } else {
        bar := bar + [EMPTY_CELL];
      }
      assert Cells(threshold)[..i + 1] == Cells(threshold)[..i] + [Cells(threshold)[i]];
      i := i + 1;
    }
    assert Cells(threshold)[..BAR_CELLS] == Cells(threshold);
    bar := bar + BAR_CLOSE;
  }

  // ---------------------------------------------------------------------------
  // The listing
  // ---------------------------------------------------------------------------

  /** A document of the "recomandari" collection; every field may be missing.
      `created` is the text form of the creation timestamp. */
  datatype Recommendation = Recommendation(
    description: Option<string>,
    kind: Option<string>,
    status: Option<string>,
    doctorId: Option<string>,
    progress: Option<Long>,
    created: Option<string>)

  /** Only the exact status "active" counts as active; anything else,
      including a missing status, counts as completed. */
  predicate IsActive(r: Recommendation) {
    r.status == Some("active")
  }

  /** A labelled line for an optional field, absent when the field is. */
  function OptionalLine(caption: string, value: Option<string>): string {
    match value
    case Some(v) => caption + v + "\n"
    case None => ""
  }

  function StatusLine(r: Recommendation): string {
    match r.status
    case Some(_) =>
      (if IsActive(r) then ACTIVE_ICON else COMPLETED_ICON) + STATUS_LABEL
        + (if IsActive(r) then ACTIVE_TEXT else COMPLETED_TEXT) + "\n"
    case None => ""
  }

  function ProgressLines(r: Recommendation): string {
    match r.progress
    case Some(p) => PROGRESS_LABEL + IntToString(p) + "%\n" + ProgressBar(p)
    case None => ""
  }

  /** The lines of the block shown for one recommendation, numbered `n`, in
      the order they are appended; a missing field contributes nothing. */
  function BlockLines(r: Recommendation, n: nat): seq<string> {
    [ BLOCK_TITLE + NatToString(n) + "\n",
      SINGLE_RULE,
      OptionalLine(DESCRIPTION_LABEL, r.description),
      (match r.kind case Some(k) => TYPE_LABEL + FormatType(k) + "\n" case None => ""),
      StatusLine(r),
      ProgressLines(r),
      OptionalLine(DOCTOR_LABEL, r.doctorId),
      OptionalLine(CREATED_LABEL, r.created),
      "\n" ]
  }

  /** The concatenation of `lines`, in order. */
  function Join(lines: seq<string>): string {
    if lines == [] then "" else lines[0] + Join(lines[1..])
  }

  /** The block shown for one recommendation, numbered `n`. */
  function Block(r: Recommendation, n: nat): string {
    Join(BlockLines(r, n))
  }

  /** Block `n` opens with its title line, which carries the number `n`. */
  lemma BlockOpensWithNumber(r: Recommendation, n: nat)
    ensures var title := BLOCK_TITLE + NatToString(n) + "\n";
      |title| <= |Block(r, n)| && Block(r, n)[..|title|] == title
  {
    var lines := BlockLines(r, n);
    assert Block(r, n) == lines[0] + Join(lines[1..]);
  }

  /** The blocks of the first `i` recommendations, numbered 1 to `i` in order. */
  function Blocks(docs: seq<Recommendation>, i: nat): string
    requires i <= |docs|
  {
    if i == 0 then "" else Blocks(docs, i - 1) + Block(docs[i - 1], i)
  }

  /** How many recommendations are active. */
  function CountActive(docs: seq<Recommendation>): nat {
    if docs == [] then 0
    else CountActive(docs[..|docs| - 1]) + (if IsActive(docs[|docs| - 1]) then 1 else 0)
  }

  /** How many recommendations are completed, i.e. not active. */
  function CountCompleted(docs: seq<Recommendation>): nat {
    if docs == [] then 0
    else CountCompleted(docs[..|docs| - 1]) + (if IsActive(docs[|docs| - 1]) then 0 else 1)
  }

  /** Every recommendation is counted exactly once, as active or completed;
      all are active exactly when each is, none exactly when none is. */
  lemma {:induction false} CountsPartition(docs: seq<Recommendation>)
    ensures CountActive(docs) + CountCompleted(docs) == |docs|
    ensures CountActive(docs) == |docs| <==> forall i :: 0 <= i < |docs| ==> IsActive(docs[i])
    ensures CountActive(docs) == 0 <==> forall i :: 0 <= i < |docs| ==> !IsActive(docs[i])
  {
    if docs != [] {
      var init := docs[..|docs| - 1];
      CountsPartition(init);
      assert forall i :: 0 <= i < |init| ==> init[i] == docs[i];
    }
  }

  /** The line with the total count. */
  function TotalLine(total: nat): string {
    TOTAL_LABEL + NatToString(total) + "\n\n"
  }

  /** The summary: active, completed and total counts. */
  function Summary(active: nat, completed: nat): string {
    DOUBLE_RULE + SUMMARY_TITLE + DOUBLE_RULE
      + ACTIVE_LABEL + NatToString(active) + "\n"
      + COMPLETED_LABEL + NatToString(completed) + "\n"
      + TotalLine(active + completed)
  }

  /** Everything of the personal listing after its heading. */
  function ListingBody(docs: seq<Recommendation>): string {
    Blocks(docs, |docs|) + Summary(CountActive(docs), CountCompleted(docs)) + TIPS
  }

  /** The personal listing for a non-empty result. */
  function Listing(docs: seq<Recommendation>): string {
    HEADER + ListingBody(docs)
  }

  /** Adding one more recommendation to the counted prefix. */
  lemma CountStep(docs: seq<Recommendation>, i: nat)
    requires i < |docs|
    ensures CountActive(docs[..i + 1]) == CountActive(docs[..i]) + (if IsActive(docs[i]) then 1 else 0)
    ensures CountCompleted(docs[..i + 1]) == CountCompleted(docs[..i]) + (if IsActive(docs[i]) then 0 else 1)
  {
    assert docs[..i + 1][..i] == docs[..i];
  }

  /** One more block after the heading and the first `i` blocks. */
  lemma ListingStep(docs: seq<Recommendation>, i: nat, text: string)
    requires i < |docs| && text == HEADER + Blocks(docs, i)
    ensures text + Block(docs[i], i + 1) == HEADER + Blocks(docs, i + 1)
  {
    AppendAssoc(HEADER, Blocks(docs, i), Block(docs[i], i + 1));
  }

  /** The summary and the tips close the listing. */
  lemma ListingDone(docs: seq<Recommendation>, text: string)
    requires text == HEADER + Blocks(docs, |docs|)
    ensures text + Summary(CountActive(docs), CountCompleted(docs)) + TIPS == Listing(docs)
  {
    var summary := Summary(CountActive(docs), CountCompleted(docs));
    AppendAssoc(HEADER, Blocks(docs, |docs|), summary);
    AppendAssoc(HEADER, Blocks(docs, |docs|) + summary, TIPS);
  }

  /** One turn of the query callback's loop: the `i`-th document bumps
      exactly one of the two counters and its block, numbered with their sum,
      is appended. */
  method RenderStep(docs: seq<Recommendation>, i: nat, text: string, active: int, completed: int)
    returns (text': string, active': int, completed': int)
    requires i < |docs| && active + completed == i
    requires active == CountActive(docs[..i]) && completed == CountCompleted(docs[..i])
    requires text == HEADER + Blocks(docs, i)
    ensures active' + completed' == i + 1
    ensures active' == CountActive(docs[..i + 1]) && completed' == CountCompleted(docs[..i + 1])
    ensures text' == HEADER + Blocks(docs, i + 1)
  {
    var r := docs[i];
    CountStep(docs, i);
    active', completed' := active, completed;
    if r.status == Some("active") {
      active' := active + 1;
    } else {
      completed' := completed + 1;
    }
    ListingStep(docs, i, text);
    text' := text + Block(r, active' + completed');
  }

  /** The query callback's loop: each document bumps exactly one of the two
      counters, and is numbered with their sum. */
  method RenderListing(docs: seq<Recommendation>) returns (text: string, active: int, completed: int)
    ensures active == CountActive(docs) && completed == CountCompleted(docs)
    ensures active + completed == |docs|
    ensures text == Listing(docs)
  {
    text := HEADER;
    active := 0;
    completed := 0;
    var i := 0;
    while i < |docs|
      invariant 0 <= i <= |docs|
      invariant active + completed == i
      invariant active == CountActive(docs[..i]) && completed == CountCompleted(docs[..i])
      invariant text == HEADER + Blocks(docs, i)
    {
      text, active, completed := RenderStep(docs, i, text, active, completed);
      i := i + 1;
    }
    assert docs[..|docs|] == docs;
    ListingDone(docs, text);
    text := text + Summary(active, completed) + TIPS;
  }

  /** `b` is what is left of `a + b` after dropping `a`. */
  lemma DropPrefix(a: string, b: string)
    ensures (a + b)[|a|..] == b
  {
  }

  /** The summary's total is the number of recommendations listed: the
      listing ends with the total line for `|docs|` followed by the tips. */
  lemma SummaryTotalIsCount(docs: seq<Recommendation>)
    ensures var tail := TotalLine(|docs|) + TIPS;
      |tail| <= |Listing(docs)| && Listing(docs)[|Listing(docs)| - |tail|..] == tail
  {
    CountsPartition(docs);
    var active := CountActive(docs);
    var completed := CountCompleted(docs);
    var counts := DOUBLE_RULE + SUMMARY_TITLE + DOUBLE_RULE
      + ACTIVE_LABEL + NatToString(active) + "\n"
      + COMPLETED_LABEL + NatToString(completed) + "\n";
    var tail := TotalLine(|docs|) + TIPS;
    var blocks := Blocks(docs, |docs|);
    assert Summary(active, completed) == counts + TotalLine(|docs|);
    AppendAssoc(blocks, counts + TotalLine(|docs|), TIPS);
    AppendAssoc(counts, TotalLine(|docs|), TIPS);
    AppendAssoc(blocks, counts, tail);
    AppendAssoc(HEADER, blocks + counts, tail);
    assert Listing(docs) == (HEADER + (blocks + counts)) + tail;
    DropPrefix(HEADER + (blocks + counts), tail);
  }

  // ---------------------------------------------------------------------------
  // What the screen shows
  // ---------------------------------------------------------------------------

  datatype View = View(text: string, toast: Option<string>)

  /** The text shown once the query completes: the personal listing when it
      found something, the default text when it found nothing or failed (a
      failure is also toasted). */
  function ShowRecommendations(q: Query<Recommendation>): (v: View)
    ensures v.text == LOCAL_TEXT <==> q.QueryFailed? || q.docs == []
    ensures v.toast.Some? <==> q.QueryFailed?
    ensures q.QueryFailed? ==> v.toast == Some(LOADING_FAILED + q.message)
    ensures q.QueryOk? && q.docs != [] ==> v.text == Listing(q.docs)
  {
    match q
    case QueryFailed(message) => View(LOCAL_TEXT, Some(LOADING_FAILED + message))
    case QueryOk(docs) =>
      if docs == [] then View(LOCAL_TEXT, None)
      else
        ListingIsNotLocal(docs);
        View(Listing(docs), None)
  }

  /** The personal listing can never be mistaken for the default text: they
      differ in the title's fourteenth character. */
  lemma ListingIsNotLocal(docs: seq<Recommendation>)
    ensures Listing(docs) != LOCAL_TEXT
  {
    HeaderIsNotLocal(ListingBody(docs));
  }

  /** Whatever follows the personal heading, the text is not the default one. */
  lemma HeaderIsNotLocal(body: string)
    ensures HEADER + body != LOCAL_TEXT
  {
    assert (HEADER + body)[13] == HEADER[13];
    assert HEADER[13] != LOCAL_TEXT[13];
  }
}
