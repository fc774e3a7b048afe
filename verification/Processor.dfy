/**
  The processor: one source after another, each through rendering, approval and
  formatting, until one is accepted. What renderers, the approver, the formatter
  and the recovery browser answer is given by outcome values; a run is any
  combination of them.
*/
module Processor {
  import opened Domain

  // A typed processing error, or one of the untyped errors that stage changes,
  // providers and cancelled contexts return.
  datatype Error =
    | Typed(category: FailureCategory, retryable: bool)
    | LeaseGone | StageRefused | ContextDone | Untyped

  datatype Result = Accepted | Rejected(error: Error)

  predicate Recoverable(e: Error) {
    e.Typed? &&
    match e.category
    case PaywallDetected | AccessDenied | FetchFailed | RenderTimeout
       | InsufficientContent | UnsupportedContent | PDFQualityFailed | FormatFailed => true
    case _ => false
  }

  datatype RenderFault = Blocked | TimedOut | LimitExceeded | OtherFault

  function RenderError(fault: RenderFault, cancelled: bool): Error {
    if cancelled then ContextDone
    else match fault
      case Blocked => Typed(BlockedTarget, false)
      case TimedOut => Typed(RenderTimeout, true)
      case LimitExceeded => Typed(FetchFailed, false)
      case OtherFault => Typed(FetchFailed, true)
  }

  // The stage callback. The job's stage moves only when the store accepts the
  // request; every request is recorded with the stage it was made in.
  datatype Progress = Progress(stage: Stage, requests: seq<(Stage, Stage)>)

  // A stage request fails for the store's own reasons, or because it is illegal.
  function SetStage(p: Progress, to: Stage, fault: Option<Error>): (Progress, Option<Error>) {
    var asked := p.(requests := p.requests + [(p.stage, to)]);
    if fault.Some? then (asked, fault)
    else if !p.stage.CanTransitionTo(to) then (asked, Some(StageRefused))
    else (asked.(stage := to), None)
  }

  datatype Approval = ApprovalFailed(error: Error) | Approved(valid: bool)
  datatype Formatting = Formatted | Interrupted | PoorQuality | NotFormatted

  datatype FormatRun = FormatRun(approvedValid: bool, stage: Option<Error>, formatting: Formatting)

  datatype PageRun = PageRun(
    screenshot: bool,
    extracting: Option<Error>,
    analyzing: Option<Error>,
    approval: Approval,
    formattingStage: Option<Error>,
    formatting: Formatting)

  datatype AttemptRun =
    | Unavailable(fault: RenderFault, cancelled: bool)          // the source itself failed
    | NoSavedRenderer                                           // static content without a renderer for it
    | StaticUnrendered(staticFault: RenderFault, staticCancelled: bool)
    | Page(page: PageRun)

  // A source in retrieval order, with the context's state after its attempt.
  datatype Source = Source(original: bool, fallback: bool, restart: Option<Error>, attempt: AttemptRun, expired: bool)

  datatype EditRun = NoEdits | EditUnreadable | EditAbsent | EditUnfit(error: Error) | EditFound(format: FormatRun)
  datatype LanguageRun = NoLanguages | LanguageUnreadable | LanguageInvalid | LanguageKnown
  datatype SavedRun =
    | NoSavedPages | SavedUnreadable | SavedAbsent
    | SavedUnrendered(fault: RenderFault, cancelled: bool)
    | SavedFound(page: PageRun, cancelledAfter: bool, restart: Option<Error>)
  datatype BrowserRun = BrowserRun(restart: Option<Error>, recovered: Option<PageRun>)

  datatype Run = Run(
    configured: bool,
    edit: EditRun,
    language: LanguageRun,
    saved: SavedRun,
    sources: seq<Source>,
    expiredAfterSources: bool,
    fallbackRestart: Option<Error>,
    expiredAfterFallback: bool,
    cancelled: bool,
    browser: Option<BrowserRun>)

  // --------------------------------------------------------- one article

  function FormatArticle(p: Progress, r: FormatRun): (Progress, Result) {
    if !r.approvedValid then (p, Rejected(Typed(AIInvalidResponse, false)))
    else
      var (q, fault) := SetStage(p, Formatting, r.stage);
      if fault.Some? then (q, Rejected(fault.value))
      else match r.formatting
        case Formatted => (q, Accepted)
        case Interrupted => (q, Rejected(ContextDone))
        case PoorQuality => (q, Rejected(Typed(PDFQualityFailed, false)))
        case NotFormatted => (q, Rejected(Typed(FormatFailed, false)))
  }

  function ProcessPage(p: Progress, r: PageRun): (Progress, Result) {
    if !r.screenshot then (p, Rejected(Typed(FetchFailed, true)))
    else
      var (q, fault) := SetStage(p, Extracting, r.extracting);
      if fault.Some? then (q, Rejected(fault.value))
      else
        var (s, refused) := SetStage(q, AIAnalyzing, r.analyzing);
        if refused.Some? then (s, Rejected(refused.value))
        else match r.approval
          case ApprovalFailed(e) => (s, Rejected(e))
          case Approved(valid) => FormatArticle(s, FormatRun(valid, r.formattingStage, r.formatting))
  }

  function Attempt(p: Progress, r: AttemptRun): (Progress, Result) {
    match r
    case Unavailable(fault, cancelled) => (p, Rejected(RenderError(fault, cancelled)))
    case NoSavedRenderer => (p, Rejected(Typed(UnsupportedContent, false)))
    case StaticUnrendered(fault, cancelled) => (p, Rejected(RenderError(fault, cancelled)))
    case Page(page) => ProcessPage(p, page)
  }

  // -------------------------------------------------------- all sources

  // What the loop over sources remembers.
  datatype Memory = Memory(originalError: Option<Error>, transient: bool, fallback: Option<Source>, attempts: nat)

  const FRESH := Memory(None, false, None, 0)

  datatype SourcesEnd = Returned(result: Result) | Exhausted(memory: Memory, expired: bool)

  // After a failed attempt: what is remembered, and whether the error ends it.
  function Remember(m: Memory, s: Source, e: Error): Memory {
    m.(originalError := if s.original || m.originalError.None? then Some(e) else m.originalError,
       transient := m.transient || (e.Typed? && !s.original && e.retryable))
  }

  predicate EndsSearch(s: Source, e: Error) {
    !Recoverable(e) && !(e.Typed? && e.category == BlockedTarget && !s.original) && !s.expired
  }

  function TrySources(p: Progress, sources: seq<Source>, m: Memory): (Progress, SourcesEnd)
    decreases |sources|
  {
    if sources == [] then (p, Exhausted(m, false))
    else
      var s := sources[0];
      if s.fallback && !s.attempt.Unavailable? then
        var kept := m.(fallback := Some(s));
        if s.expired then (p, Exhausted(kept, true)) else TrySources(p, sources[1..], kept)
      else
        var (q, fault) := if m.attempts > 0 then SetStage(p, Fetching, s.restart) else (p, None);
        if fault.Some? then (q, Returned(Rejected(fault.value)))
        else
          var (t, result) := Attempt(q, s.attempt);
          if result.Accepted? then (t, Returned(Accepted))
          else if EndsSearch(s, result.error) then (t, Returned(result))
          else
            var kept := Remember(m.(attempts := m.attempts + 1), s, result.error);
            if s.expired then (t, Exhausted(kept, true)) else TrySources(t, sources[1..], kept)
  }

  // The error of a run without an accepted source: temporary archive outages
  // make it retryable.
  function FinalError(m: Memory, expired: bool): Error {
    if m.originalError.None? then (if expired then ContextDone else Typed(FetchFailed, true))
    else if m.transient && m.originalError.value.Typed? then Typed(m.originalError.value.category, true)
    else m.originalError.value
  }

  function UseBrowser(p: Progress, run: Run, m: Memory, expired: bool): (Progress, Result) {
    if run.cancelled then (p, Rejected(ContextDone))
    else if run.browser.None? || expired then (p, Rejected(FinalError(m, expired)))
    else
      var b := run.browser.value;
      var (q, fault) := SetStage(p, Fetching, b.restart);
      if fault.Some? then (q, Rejected(fault.value))
      else if b.recovered.Some? then ProcessPage(q, b.recovered.value)
      else (q, Rejected(FinalError(m, expired)))
  }

  function AfterSources(p: Progress, run: Run, m: Memory, expired: bool): (Progress, Result) {
    if m.fallback.None? || expired then UseBrowser(p, run, m, expired)
    else
      var (q, fault) := SetStage(p, Fetching, run.fallbackRestart);
      if fault.Some? then (q, Rejected(fault.value))
      else
        var (t, result) := Attempt(q, m.fallback.value.attempt);
        if result.Accepted? || !Recoverable(result.error) then (t, result)
        else UseBrowser(t, run, m, run.expiredAfterFallback)
  }

  function FreshSources(p: Progress, run: Run): (Progress, Result) {
    var (q, end) := TrySources(p, run.sources, FRESH);
    match end
    case Returned(result) => (q, result)
    case Exhausted(m, expired) => AfterSources(q, run, m, expired || run.expiredAfterSources)
  }

  // A saved page comes first; only an unusable one falls back to fresh sources.
  function SavedThenFresh(p: Progress, run: Run): (Progress, Result) {
    match run.saved
    case SavedUnreadable => (p, Rejected(Typed(FetchFailed, true)))
    case SavedUnrendered(fault, cancelled) => (p, Rejected(RenderError(fault, cancelled)))
    case SavedFound(page, cancelledAfter, restart) =>
      var (q, result) := ProcessPage(p, page);
      if result.Accepted? || !Recoverable(result.error) || cancelledAfter then (q, result)
      else
        var (t, fault) := SetStage(q, Fetching, restart);
        if fault.Some? then (t, Rejected(fault.value)) else FreshSources(t, run)
    case _ => FreshSources(p, run)
  }

  function ProcessRun(p: Progress, run: Run): (Progress, Result) {
    if !run.configured then (p, Rejected(Typed(InternalError, false)))
    else match run.edit
      case EditUnreadable => (p, Rejected(Typed(StorageFailed, true)))
      case EditUnfit(e) => (p, Rejected(e))
      case EditFound(format) => FormatArticle(p, format)
      case _ =>
        match run.language
        case LanguageUnreadable => (p, Rejected(Typed(StorageFailed, true)))
        case LanguageInvalid => (p, Rejected(Typed(AIInvalidResponse, false)))
        case _ => SavedThenFresh(p, run)
  }

  // ---------------------------------------------------- the loop in place

  method Process(start: Progress, run: Run) returns (p: Progress, result: Result)
    ensures (p, result) == ProcessRun(start, run)
  {
    p := start;
    if !run.configured { return p, Rejected(Typed(InternalError, false)); }
    match run.edit {
      case EditUnreadable => return p, Rejected(Typed(StorageFailed, true));
      case EditUnfit(e) => return p, Rejected(e);
      case EditFound(format) =>
        var (q, formatted) := FormatArticle(p, format);
        return q, formatted;
      case _ =>
    }
    if run.language.LanguageUnreadable? { return p, Rejected(Typed(StorageFailed, true)); }
    if run.language.LanguageInvalid? { return p, Rejected(Typed(AIInvalidResponse, false)); }
    match run.saved {
      case SavedUnreadable => return p, Rejected(Typed(FetchFailed, true));
      case SavedUnrendered(fault, cancelled) => return p, Rejected(RenderError(fault, cancelled));
      case SavedFound(page, cancelledAfter, restart) =>
        var (q, savedResult) := ProcessPage(p, page);
        if savedResult.Accepted? || !Recoverable(savedResult.error) || cancelledAfter {
          return q, savedResult;
        }
        var (t, fault) := SetStage(q, Fetching, restart);
        if fault.Some? { return t, Rejected(fault.value); }
        p := t;
      case _ =>
    }
    p, result := SearchSources(p, run);
  }

  // The loop over fresh sources and the last resorts after it.
  method SearchSources(start: Progress, run: Run) returns (p: Progress, result: Result)
    ensures (p, result) == FreshSources(start, run)
  {
    p := start;
    var originalError: Option<Error>, transient, fallback: Option<Source> := None, false, None;
    var attempt, i, expired := 0, 0, false;
    while i < |run.sources| && !expired
      invariant i <= |run.sources|
      invariant var m := Memory(originalError, transient, fallback, attempt);
                TrySources(start, run.sources, FRESH)
                == if expired then (p, Exhausted(m, true)) else TrySources(p, run.sources[i..], m)
    {
      var source := run.sources[i];
      i, expired := i + 1, source.expired;
      if source.fallback && !source.attempt.Unavailable? {
        fallback := Some(source);
        continue;
      }
      if attempt > 0 {
        var (q, fault) := SetStage(p, Fetching, source.restart);
        p := q;
        if fault.Some? { return p, Rejected(fault.value); }
      }
      attempt := attempt + 1;
      var (q, tried) := Attempt(p, source.attempt);
      p := q;
      if tried.Accepted? { return p, Accepted; }
      var e := tried.error;
      if source.original || originalError.None? {
        originalError := Some(e);
      }
      var blockedArchive := e.Typed? && e.category == BlockedTarget && !source.original;
      if e.Typed? && !source.original {
        transient := transient || e.retryable;
      }
      if !Recoverable(e) && !blockedArchive && !source.expired {
        return p, Rejected(e);
      }
    }
    expired := expired || run.expiredAfterSources;
    if fallback.Some? && !expired {
      var (q, fault) := SetStage(p, Fetching, run.fallbackRestart);
      if fault.Some? { return q, Rejected(fault.value); }
      var (t, tried) := Attempt(q, fallback.value.attempt);
      p := t;
      if tried.Accepted? || !Recoverable(tried.error) { return p, tried; }
      expired := run.expiredAfterFallback;
    }
    var (q, last) := UseBrowser(p, run, Memory(originalError, transient, fallback, attempt), expired);
    return q, last;
  }

  // ----------------------------------------------------------- legality

  // Every request so far was legal, and the requests form one trace.
  ghost predicate LegalSoFar(p: Progress) {
    p.stage in {Fetching, Extracting, AIAnalyzing, Formatting}
    && forall r <- p.requests :: r.0.CanTransitionTo(r.1)
  }

  // A step that asked only for legal stages, and succeeds only when formatted
  // right after the given stage.
  ghost predicate Good(p: Progress, result: Result, before: Stage) {
    LegalSoFar(p) &&
    (result.Accepted? ==>
       p.stage == Formatting && p.requests != [] && p.requests[|p.requests| - 1] == (before, Formatting))
  }

  lemma AskKeepsLegal(p: Progress, to: Stage, fault: Option<Error>)
    requires LegalSoFar(p) && p.stage.CanTransitionTo(to) && to != Persisting
    ensures var (q, refused) := SetStage(p, to, fault);
            LegalSoFar(q) && refused == fault && (fault.None? ==> q.stage == to)
  {
  }

  lemma FormatIsGood(p: Progress, r: FormatRun)
    requires LegalSoFar(p) && p.stage in {Fetching, AIAnalyzing}
    ensures var (q, result) := FormatArticle(p, r); Good(q, result, p.stage)
  {
    AskKeepsLegal(p, Formatting, r.stage);
  }

  lemma PageIsGood(p: Progress, r: PageRun)
    requires LegalSoFar(p) && p.stage == Fetching
    ensures var (q, result) := ProcessPage(p, r); Good(q, result, AIAnalyzing)
  {
    if r.screenshot {
      AskKeepsLegal(p, Extracting, r.extracting);
      var (q, fault) := SetStage(p, Extracting, r.extracting);
      if fault.None? {
        AskKeepsLegal(q, AIAnalyzing, r.analyzing);
        var (s, refused) := SetStage(q, AIAnalyzing, r.analyzing);
        if refused.None? && r.approval.Approved? {
          FormatIsGood(s, FormatRun(r.approval.valid, r.formattingStage, r.formatting));
        }
      }
    }
  }

  lemma AttemptIsGood(p: Progress, r: AttemptRun)
    requires LegalSoFar(p) && p.stage == Fetching
    ensures var (q, result) := Attempt(p, r); Good(q, result, AIAnalyzing)
  {
    if r.Page? { PageIsGood(p, r.page); }
  }

  lemma {:induction false} SourcesAreGood(p: Progress, sources: seq<Source>, m: Memory)
    requires LegalSoFar(p) && (m.attempts == 0 ==> p.stage == Fetching)
    ensures var (q, end) := TrySources(p, sources, m);
            if end.Returned? then Good(q, end.result, AIAnalyzing) else LegalSoFar(q)
    decreases |sources|
  {
    if sources != [] {
      var s := sources[0];
      if s.fallback && !s.attempt.Unavailable? {
        SourcesAreGood(p, sources[1..], m.(fallback := Some(s)));
      } else {
        AskKeepsLegal(p, Fetching, s.restart);
        var (q, fault) := if m.attempts > 0 then SetStage(p, Fetching, s.restart) else (p, None);
        if fault.None? {
          AttemptIsGood(q, s.attempt);
          var (t, result) := Attempt(q, s.attempt);
          if result.Rejected? {
            SourcesAreGood(t, sources[1..], Remember(m.(attempts := m.attempts + 1), s, result.error));
          }
        }
      }
    }
  }

  lemma BrowserIsGood(p: Progress, run: Run, m: Memory, expired: bool)
    requires LegalSoFar(p)
    ensures var (q, result) := UseBrowser(p, run, m, expired); Good(q, result, AIAnalyzing)
  {
    if run.browser.Some? {
      var b := run.browser.value;
      AskKeepsLegal(p, Fetching, b.restart);
      var (q, fault) := SetStage(p, Fetching, b.restart);
      if fault.None? && b.recovered.Some? { PageIsGood(q, b.recovered.value); }
    }
  }

  lemma FreshIsGood(p: Progress, run: Run)
    requires LegalSoFar(p) && p.stage == Fetching
    ensures var (q, result) := FreshSources(p, run); Good(q, result, AIAnalyzing)
  {
    SourcesAreGood(p, run.sources, FRESH);
    var (q, end) := TrySources(p, run.sources, FRESH);
    if end.Exhausted? {
      var m, expired := end.memory, end.expired || run.expiredAfterSources;
      BrowserIsGood(q, run, m, expired);
      if m.fallback.Some? && !expired {
        AskKeepsLegal(q, Fetching, run.fallbackRestart);
        var (t, fault) := SetStage(q, Fetching, run.fallbackRestart);
        if fault.None? {
          AttemptIsGood(t, m.fallback.value.attempt);
          BrowserIsGood(Attempt(t, m.fallback.value.attempt).0, run, m, run.expiredAfterFallback);
        }
      }
    }
  }

  lemma SavedIsGood(p: Progress, run: Run)
    requires LegalSoFar(p) && p.stage == Fetching
    ensures var (q, result) := SavedThenFresh(p, run); Good(q, result, AIAnalyzing)
  {
    if run.saved.SavedFound? {
      PageIsGood(p, run.saved.page);
      var q := ProcessPage(p, run.saved.page).0;
      AskKeepsLegal(q, Fetching, run.saved.restart);
      var (t, fault) := SetStage(q, Fetching, run.saved.restart);
      if fault.None? { FreshIsGood(t, run); }
    } else {
      FreshIsGood(p, run);
    }
  }

  // For every run: started in the fetching stage, the processor never asks for
  // a forbidden stage, and it succeeds only in the formatting stage, so that
  // the worker's move to persisting is legal. Unless the owner's own reviewed
  // text is formatted, formatting directly follows approval.
  lemma ProcessIsLegal(run: Run)
    ensures var (p, result) := ProcessRun(Progress(Fetching, []), run);
            && (forall r <- p.requests :: r.0.CanTransitionTo(r.1))
            && (result.Accepted? ==>
                  && p.stage == Formatting && p.stage.CanTransitionTo(Persisting)
                  && p.requests != []
                  && p.requests[|p.requests| - 1] == (if run.edit.EditFound? then Fetching else AIAnalyzing, Formatting))
  {
    var p := Progress(Fetching, []);
    SavedIsGood(p, run);
    if run.edit.EditFound? { FormatIsGood(p, run.edit.format); }
  }

  // ------------------------------------------- which source is answered for

  // What a page comes to: the first thing that goes wrong, or success.
  function PageAnswer(r: PageRun): Result {
    if !r.screenshot then Rejected(Typed(FetchFailed, true))
    else if r.extracting.Some? then Rejected(r.extracting.value)
    else if r.analyzing.Some? then Rejected(r.analyzing.value)
    else if r.approval.ApprovalFailed? then Rejected(r.approval.error)
    else FormatAnswer(FormatRun(r.approval.valid, r.formattingStage, r.formatting))
  }

  function FormatAnswer(r: FormatRun): Result {
    if !r.approvedValid then Rejected(Typed(AIInvalidResponse, false))
    else if r.stage.Some? then Rejected(r.stage.value)
    else if r.formatting.Formatted? then Accepted
    else if r.formatting.Interrupted? then Rejected(ContextDone)
    else Rejected(Typed(if r.formatting.PoorQuality? then PDFQualityFailed else FormatFailed, false))
  }

  function RenderAnswer(fault: RenderFault, cancelled: bool): Result {
    if cancelled then Rejected(ContextDone)
    else if fault.Blocked? then Rejected(Typed(BlockedTarget, false))
    else if fault.TimedOut? then Rejected(Typed(RenderTimeout, true))
    else Rejected(Typed(FetchFailed, fault.OtherFault?))
  }

  function Answer(r: AttemptRun): Result {
    match r
    case Unavailable(fault, cancelled) => RenderAnswer(fault, cancelled)
    case NoSavedRenderer => Rejected(Typed(UnsupportedContent, false))
    case StaticUnrendered(fault, cancelled) => RenderAnswer(fault, cancelled)
    case Page(page) => PageAnswer(page)
  }

  predicate Underway(p: Progress) {
    p.stage in {Fetching, Extracting, AIAnalyzing, Formatting}
  }

  lemma FormatAnswers(p: Progress, r: FormatRun)
    requires p.stage in {Fetching, AIAnalyzing}
    ensures FormatArticle(p, r).1 == FormatAnswer(r) && Underway(FormatArticle(p, r).0)
  {
  }

  lemma PageAnswers(p: Progress, r: PageRun)
    requires p.stage == Fetching
    ensures ProcessPage(p, r).1 == PageAnswer(r) && Underway(ProcessPage(p, r).0)
  {
    var (q, fault) := SetStage(p, Extracting, r.extracting);
    var (s, refused) := SetStage(q, AIAnalyzing, r.analyzing);
    if r.screenshot && fault.None? && refused.None? && r.approval.Approved? {
      FormatAnswers(s, FormatRun(r.approval.valid, r.formattingStage, r.formatting));
    }
  }

  lemma AttemptAnswers(p: Progress, r: AttemptRun)
    requires p.stage == Fetching
    ensures Attempt(p, r).1 == Answer(r) && Underway(Attempt(p, r).0)
  {
    if r.Page? { PageAnswers(p, r.page); }
  }

  // The errors after which another source is tried.
  predicate Soft(e: Error) {
    e.Typed? && e.category in {PaywallDetected, AccessDenied, FetchFailed, RenderTimeout, InsufficientContent,
                               UnsupportedContent, PDFQualityFailed, FormatFailed}
  }

  // A fallback that is there is kept for later instead of being tried.
  predicate Kept(s: Source) {
    s.fallback && !s.attempt.Unavailable?
  }

  predicate Fails(s: Source) {
    !Kept(s) && Answer(s.attempt).Rejected?
  }

  // The source leads on to the next: it is kept, or fails with a soft error, or
  // is an archive that may not be visited.
  predicate LeadsOn(s: Source) {
    && !s.expired
    && (Kept(s) || (&& s.restart.None? && Fails(s) && var e := Answer(s.attempt).error;
                       Soft(e) || (e.Typed? && e.category == BlockedTarget && !s.original)))
  }

  // What is remembered of the first n sources: the error of the last original
  // that was tried, or else of the first source tried; whether an archive
  // failed temporarily; and the last source kept.
  ghost predicate Remembers(sources: seq<Source>, n: nat, m: Memory)
    requires n <= |sources|
  {
    && (m.attempts == 0 <==> forall i | 0 <= i < n :: Kept(sources[i]))
    && RemembersError(sources, n, m) && RemembersTemporary(sources, n, m) && RemembersFallback(sources, n, m)
  }

  ghost predicate RemembersError(sources: seq<Source>, n: nat, m: Memory)
    requires n <= |sources|
  {
    && (m.originalError.None? <==> m.attempts == 0)
    && (m.originalError.Some? ==> exists i :: 0 <= i < n && ErrorOfRun(sources, n, i, m.originalError.value))
  }

  ghost predicate RemembersTemporary(sources: seq<Source>, n: nat, m: Memory)
    requires n <= |sources|
  {
    m.transient <==> exists i :: 0 <= i < n && Temporary(sources[i])
  }

  ghost predicate RemembersFallback(sources: seq<Source>, n: nat, m: Memory)
    requires n <= |sources|
  {
    && (m.fallback.None? <==> forall i | 0 <= i < n :: !Kept(sources[i]))
    && (m.fallback.Some? ==> exists i :: 0 <= i < n && LastKept(sources, n, i) && sources[i] == m.fallback.value)
  }

  ghost predicate ErrorOfRun(sources: seq<Source>, n: nat, i: nat, e: Error)
    requires i < n <= |sources|
  {
    && Fails(sources[i]) && Answer(sources[i].attempt).error == e
    && (if sources[i].original then forall j | i < j < n :: !(Fails(sources[j]) && sources[j].original)
        else && (forall j | 0 <= j < i :: !Fails(sources[j]))
             && forall j | 0 <= j < n :: !(Fails(sources[j]) && sources[j].original))
  }

  predicate Temporary(s: Source) {
    Fails(s) && !s.original && var e := Answer(s.attempt).error; e.Typed? && e.retryable
  }

  ghost predicate LastKept(sources: seq<Source>, n: nat, i: nat)
    requires i < n <= |sources|
  {
    Kept(sources[i]) && forall j | i < j < n :: !Kept(sources[j])
  }

  lemma RemembersKept(sources: seq<Source>, n: nat, m: Memory)
    requires n < |sources| && (forall i | 0 <= i <= n :: Kept(sources[i]) || Fails(sources[i]))
    requires Remembers(sources, n, m) && Kept(sources[n])
    ensures Remembers(sources, n + 1, m.(fallback := Some(sources[n])))
  {
    assert LastKept(sources, n + 1, n);
    if m.originalError.Some? {
      var i :| 0 <= i < n && ErrorOfRun(sources, n, i, m.originalError.value);
      assert ErrorOfRun(sources, n + 1, i, m.originalError.value);
    }
  }

  lemma SameFallback(sources: seq<Source>, n: nat, next: nat, m: Memory)
    requires n < next == n + 1 <= |sources| && RemembersFallback(sources, n, m) && !Kept(sources[n])
    ensures RemembersFallback(sources, next, m)
  {
    if m.fallback.Some? {
      var i :| 0 <= i < n && LastKept(sources, n, i) && sources[i] == m.fallback.value;
      assert LastKept(sources, next, i);
    }
  }

  lemma NextTemporary(sources: seq<Source>, n: nat, next: nat, m: Memory, transient: bool)
    requires n < next == n + 1 <= |sources| && RemembersTemporary(sources, n, m)
    requires transient == (m.transient || Temporary(sources[n]))
    ensures RemembersTemporary(sources, next, m.(transient := transient))
  {
    if m.transient {
      var i :| 0 <= i < n && Temporary(sources[i]);
      assert 0 <= i < next && Temporary(sources[i]);
    }
  }

  // The first source tried, or an original, gives the error.
  lemma NewError(sources: seq<Source>, n: nat, next: nat, m: Memory)
    requires n < next == n + 1 <= |sources| && (forall i | 0 <= i <= n :: Kept(sources[i]) || Fails(sources[i]))
    requires Remembers(sources, n, m) && Fails(sources[n]) && (sources[n].original || m.originalError.None?)
    ensures ErrorOfRun(sources, next, n, Answer(sources[n].attempt).error)
  {
  }

  lemma OldError(sources: seq<Source>, n: nat, next: nat, m: Memory)
    requires n < next == n + 1 <= |sources| && !sources[n].original && m.originalError.Some?
    requires RemembersError(sources, n, m)
    ensures exists i :: 0 <= i < next && ErrorOfRun(sources, next, i, m.originalError.value)
  {
    var i :| 0 <= i < n && ErrorOfRun(sources, n, i, m.originalError.value);
    assert ErrorOfRun(sources, next, i, m.originalError.value);
  }

  lemma RemembersFailed(sources: seq<Source>, n: nat, m: Memory)
    requires n < |sources| && (forall i | 0 <= i <= n :: Kept(sources[i]) || Fails(sources[i]))
    requires Remembers(sources, n, m) && Fails(sources[n])
    ensures Remembers(sources, n + 1, Remember(m.(attempts := m.attempts + 1), sources[n], Answer(sources[n].attempt).error))
  {
    var e := Answer(sources[n].attempt).error;
    var after := Remember(m.(attempts := m.attempts + 1), sources[n], e);
    SameFallback(sources, n, n + 1, m);
    NextTemporary(sources, n, n + 1, m, after.transient);
    if sources[n].original || m.originalError.None? {
      NewError(sources, n, n + 1, m);
    } else {
      OldError(sources, n, n + 1, m);
    }
    assert !Kept(sources[n]);
  }

  // Past sources that lead on, the search goes on with what it remembers.
  lemma {:induction false} PastSources(p: Progress, sources: seq<Source>, n: nat) returns (t: Progress, m: Memory)
    requires p.stage == Fetching && n <= |sources| && forall i | 0 <= i < n :: LeadsOn(sources[i])
    ensures TrySources(p, sources, FRESH) == TrySources(t, sources[n..], m)
    ensures Underway(t) && (m.attempts == 0 ==> t.stage == Fetching) && Remembers(sources, n, m)
  {
    if n == 0 {
      return p, FRESH;
    }
    var q, before := PastSources(p, sources, n - 1);
    var s := sources[n - 1];
    assert sources[n - 1..][0] == s && sources[n - 1..][1..] == sources[n..];
    if Kept(s) {
      RemembersKept(sources, n - 1, before);
      return q, before.(fallback := Some(s));
    }
    var u := OneSource(q, sources[n - 1..], before);
    RemembersFailed(sources, n - 1, before);
    return u, Remember(before.(attempts := before.attempts + 1), s, Answer(s.attempt).error);
  }

  lemma OneSource(p: Progress, sources: seq<Source>, m: Memory) returns (t: Progress)
    requires sources != [] && Underway(p) && (m.attempts == 0 ==> p.stage == Fetching)
    requires LeadsOn(sources[0]) && !Kept(sources[0])
    ensures Underway(t)
    ensures var e := Answer(sources[0].attempt).error;
            TrySources(p, sources, m) == TrySources(t, sources[1..], Remember(m.(attempts := m.attempts + 1), sources[0], e))
  {
    var q := Restarted(p, sources[0], m);
    AttemptAnswers(q, sources[0].attempt);
    t := Attempt(q, sources[0].attempt).0;
  }

  // The progress in which a source is tried.
  function Restarted(p: Progress, s: Source, m: Memory): (q: Progress)
    requires Underway(p) && (m.attempts == 0 ==> p.stage == Fetching) && (m.attempts > 0 ==> s.restart.None?)
    ensures q.stage == Fetching
    ensures (q, None) == if m.attempts > 0 then SetStage(p, Fetching, s.restart) else (p, None)
  {
    if m.attempts > 0 then SetStage(p, Fetching, s.restart).0 else p
  }

  // The run gets to the fresh sources: there is no edited reading, the language
  // is known, and there is no saved page or it failed with a soft error.
  predicate GetsToSources(run: Run) {
    && run.configured && (run.edit.NoEdits? || run.edit.EditAbsent?)
    && (run.language.NoLanguages? || run.language.LanguageKnown?)
    && (run.saved.NoSavedPages? || run.saved.SavedAbsent?
        || (&& run.saved.SavedFound? && !run.saved.cancelledAfter && run.saved.restart.None?
            && PageAnswer(run.saved.page).Rejected? && Soft(PageAnswer(run.saved.page).error)))
  }

  const BEGIN := Progress(Fetching, [])

  // The progress in which the first source is tried.
  function Onset(run: Run): (p: Progress)
    requires GetsToSources(run)
    ensures run.saved.SavedFound? ==> Underway(ProcessPage(BEGIN, run.saved.page).0)
    ensures p.stage == Fetching
  {
    if run.saved.SavedFound? then
      PageAnswers(BEGIN, run.saved.page);
      SetStage(ProcessPage(BEGIN, run.saved.page).0, Fetching, None).0
    else BEGIN
  }

  lemma AtSources(run: Run)
    requires GetsToSources(run)
    ensures ProcessRun(BEGIN, run) == FreshSources(Onset(run), run)
  {
    if run.saved.SavedFound? { PageAnswers(BEGIN, run.saved.page); }
  }

  // An edited reading and a saved page come before every source: each succeeds
  // if nothing goes wrong with it, and what goes wrong is the answer, but for a
  // soft error of the saved page.
  lemma OwnTextFirst(run: Run)
    requires run.configured
    ensures run.edit.EditFound? ==> ProcessRun(BEGIN, run).1 == FormatAnswer(run.edit.format)
    ensures && (run.edit.NoEdits? || run.edit.EditAbsent?) && (run.language.NoLanguages? || run.language.LanguageKnown?)
            && run.saved.SavedFound? && !GetsToSources(run) && run.saved.restart.None? ==>
              ProcessRun(BEGIN, run).1 == PageAnswer(run.saved.page)
  {
    if run.edit.EditFound? { FormatAnswers(BEGIN, run.edit.format); }
    if run.saved.SavedFound? { PageAnswers(BEGIN, run.saved.page); }
  }

  lemma {:induction false} ReturnedStays(p: Progress, sources: seq<Source>, more: seq<Source>, m: Memory)
    requires TrySources(p, sources, m).1.Returned?
    ensures TrySources(p, sources + more, m) == TrySources(p, sources, m)
    decreases |sources|
  {
    var s := sources[0];
    assert (sources + more)[1..] == sources[1..] + more;
    if Kept(s) {
      ReturnedStays(p, sources[1..], more, m.(fallback := Some(s)));
    } else {
      var (q, fault) := if m.attempts > 0 then SetStage(p, Fetching, s.restart) else (p, None);
      var (t, result) := Attempt(q, s.attempt);
      if fault.None? && result.Rejected? && !EndsSearch(s, result.error) && !s.expired {
        ReturnedStays(t, sources[1..], more, Remember(m.(attempts := m.attempts + 1), s, result.error));
      }
    }
  }

  // The k-th source is tried: every source before it leads on.
  predicate Tries(run: Run, k: nat) {
    && GetsToSources(run) && k < |run.sources| && (forall i | 0 <= i < k :: LeadsOn(run.sources[i]))
    && !Kept(run.sources[k]) && run.sources[k].restart.None?
  }

  // The run without the sources after the k-th.
  function CutAfter(run: Run, k: nat): Run
    requires k < |run.sources|
  {
    run.(sources := run.sources[..k + 1])
  }

  lemma Tried(run: Run, k: nat) returns (q: Progress, m: Memory)
    requires Tries(run, k)
    ensures q.stage == Fetching && Underway(Attempt(q, run.sources[k].attempt).0)
    ensures Attempt(q, run.sources[k].attempt).1 == Answer(run.sources[k].attempt)
    ensures var (t, result) := Attempt(q, run.sources[k].attempt);
            && (result.Accepted? ==> TrySources(Onset(run), run.sources, FRESH) == (t, Returned(Accepted)))
            && (result.Rejected? && EndsSearch(run.sources[k], result.error) ==>
                  TrySources(Onset(run), run.sources, FRESH) == (t, Returned(result)))
            && (result.Rejected? && run.sources[k].expired ==>
                  TrySources(Onset(run), run.sources, FRESH) == (t, Exhausted(m, true)))
    ensures Fails(run.sources[k]) ==> Remembers(run.sources, k + 1, m)
  {
    var s := run.sources[k];
    var t, before := PastSources(Onset(run), run.sources, k);
    assert run.sources[k..][0] == s;
    q := Restarted(t, s, before);
    AttemptAnswers(q, s.attempt);
    m := before;
    if Fails(s) {
      RemembersFailed(run.sources, k, before);
      m := Remember(before.(attempts := before.attempts + 1), s, Answer(s.attempt).error);
    }
  }

  // If every source before the k-th leads on and the k-th succeeds, so does the
  // processor, and no source after it is tried.
  lemma LaterSourceSucceeds(run: Run, k: nat)
    requires Tries(run, k) && Answer(run.sources[k].attempt).Accepted?
    ensures ProcessRun(BEGIN, run).1 == Accepted
    ensures ProcessRun(BEGIN, run) == ProcessRun(BEGIN, CutAfter(run, k))
  {
    AtSources(run);
    AtSources(CutAfter(run, k));
    var q, m := Tried(run, k);
    var r, n := Tried(CutAfter(run, k), k);
    assert run.sources[..k + 1] + run.sources[k + 1..] == run.sources;
    ReturnedStays(Onset(run), run.sources[..k + 1], run.sources[k + 1..], FRESH);
  }

  // Any other error of a source whose time is not over is the answer, and no
  // source after it is tried.
  lemma OtherErrorEnds(run: Run, k: nat, e: Error)
    requires Tries(run, k) && Answer(run.sources[k].attempt) == Rejected(e) && !run.sources[k].expired
    requires !Soft(e) && !(e.Typed? && e.category == BlockedTarget && !run.sources[k].original)
    ensures ProcessRun(BEGIN, run).1 == Rejected(e)
    ensures ProcessRun(BEGIN, run) == ProcessRun(BEGIN, CutAfter(run, k))
  {
    AtSources(run);
    AtSources(CutAfter(run, k));
    var q, m := Tried(run, k);
    var r, n := Tried(CutAfter(run, k), k);
    assert run.sources[..k + 1] + run.sources[k + 1..] == run.sources;
    ReturnedStays(Onset(run), run.sources[..k + 1], run.sources[k + 1..], FRESH);
  }

  // The answer of a run without success: the original's error, made retryable
  // exactly if it is typed and an archive failed temporarily.
  predicate GivesUpWith(m: Memory, expired: bool, result: Result) {
    if m.originalError.None? then result == Rejected(if expired then ContextDone else Typed(FetchFailed, true))
    else if m.originalError.value.Typed? && m.transient then
      result == Rejected(Typed(m.originalError.value.category, true))
    else result == Rejected(m.originalError.value)
  }

  // What the browser, asked last, makes of the run.
  predicate BrowserAnswers(run: Run, m: Memory, expired: bool, result: Result) {
    if run.cancelled then result == Rejected(ContextDone)
    else if expired || run.browser.None? then GivesUpWith(m, expired, result)
    else if run.browser.value.restart.Some? then result == Rejected(run.browser.value.restart.value)
    else if run.browser.value.recovered.Some? then result == PageAnswer(run.browser.value.recovered.value)
    else GivesUpWith(m, expired, result)
  }

  lemma BrowserLast(p: Progress, run: Run, m: Memory, expired: bool)
    requires Underway(p)
    ensures BrowserAnswers(run, m, expired, UseBrowser(p, run, m, expired).1)
  {
    if run.browser.Some? && run.browser.value.recovered.Some? {
      PageAnswers(SetStage(p, Fetching, run.browser.value.restart).0.(stage := Fetching), run.browser.value.recovered.value);
    }
  }

  // When every source has led on, the last one kept is tried, and after a soft
  // error of it, or without one, the browser.
  lemma LastResorts(run: Run) returns (m: Memory)
    requires GetsToSources(run) && forall i | 0 <= i < |run.sources| :: LeadsOn(run.sources[i])
    ensures Remembers(run.sources, |run.sources|, m)
    ensures var result := ProcessRun(BEGIN, run).1;
            if m.fallback.None? || run.expiredAfterSources then
              BrowserAnswers(run, m, run.expiredAfterSources, result)
            else if run.fallbackRestart.Some? then result == Rejected(run.fallbackRestart.value)
            else
              var tried := Answer(m.fallback.value.attempt);
              if tried.Accepted? || !Soft(tried.error) then result == tried
              else BrowserAnswers(run, m, run.expiredAfterFallback, result)
  {
    AtSources(run);
    var t;
    t, m := PastSources(Onset(run), run.sources, |run.sources|);
    assert run.sources[|run.sources|..] == [];
    if m.fallback.None? || run.expiredAfterSources {
      BrowserLast(t, run, m, run.expiredAfterSources);
    } else if run.fallbackRestart.None? {
      var q := SetStage(t, Fetching, None).0;
      AttemptAnswers(q, m.fallback.value.attempt);
      BrowserLast(Attempt(q, m.fallback.value.attempt).0, run, m, run.expiredAfterFallback);
    }
  }

  // A source that fails when the time is over ends the search: the answer is
  // the original's error.
  lemma TimeIsOver(run: Run, k: nat) returns (m: Memory)
    requires Tries(run, k) && Fails(run.sources[k]) && run.sources[k].expired
    ensures Remembers(run.sources, k + 1, m)
    ensures BrowserAnswers(run, m, true, ProcessRun(BEGIN, run).1)
  {
    AtSources(run);
    var q;
    q, m := Tried(run, k);
    BrowserLast(Attempt(q, run.sources[k].attempt).0, run, m, true);
  }
}
