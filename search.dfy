/** The POST path of index() (app.py:134-216): one search, then up to ten
    results turned into records, each handed to the `jobs` table as soon as it
    is built. The search, the summarization calls and the inserts are outside
    the model; what they give back is an input. */
module Search {
  import opened Wrappers
  import opened PyValue
  import Summary
  import Records

  /** `serpapi_jobs[:10]` */
  const MaxResults: nat := 10

  const MissingKeyMessage: string := "SerpApi API Key is not configured."
  const ErrorPrefix: string := "An error occurred during the job search: "

  /** Which credentials and clients the process started with. */
  datatype Config = Config(serpApiKey: bool, summarizer: bool, database: bool)

  /** What the one search call gives back: it raises, or it yields the value
      of `results.get('jobs_results', [])`. */
  datatype SearchOutcome =
    | SearchRaised(error: Exception)
    | Results(jobs: seq<Object>)

  /** What one insert into the `jobs` table ends with; the handler only logs it. */
  datatype InsertOutcome = Saved | NotSaved | InsertRaised

  /** The outside world of one request: the search outcome, and for the
      result at position i the outcome of its summarization call and of its insert. */
  datatype Services = Services(
    search: SearchOutcome,
    reply: nat -> Summary.CallOutcome,
    insert: nat -> InsertOutcome)

  /** What the request leaves behind: the records and the error shown on the
      page, the records handed to the table, and those it reported saved. */
  datatype Response = Response(
    jobs: seq<Records.JobRecord>,
    error: Option<string>,
    handed: seq<Records.JobRecord>,
    saved: seq<Records.JobRecord>)

  /** What the loop body gives for one result: its record or an exception. */
  type Attempt = Result<Records.JobRecord, Exception>

  /** The records built so far and the exception that stopped the loop, if any. */
  datatype Progress = Progress(built: seq<Records.JobRecord>, fault: Option<Exception>)

  function Min(a: nat, b: nat): nat { if a <= b then a else b }

  /** `serpapi_jobs[:10]` */
  function Kept(found: seq<Object>): (r: seq<Object>)
    ensures |r| == Min(|found|, MaxResults)
    ensures forall k :: 0 <= k < |r| ==> r[k] == found[k]
  {
    found[..Min(|found|, MaxResults)]
  }

  /** `request.form.get('location')` as a Python value. */
  function FormValue(location: Option<string>): Json
  {
    match location
    case None => Null
    case Some(s) => Str(s)
  }

  /** What the loop body would give for each result, were the loop to reach it. */
  function Attempts(jobs: seq<Object>, fallback: Json, client: bool,
                    reply: nat -> Summary.CallOutcome, show: Json -> string): (rs: seq<Attempt>)
    ensures |rs| == |jobs|
  {
    seq(|jobs|, k requires 0 <= k < |jobs| => Records.MakeRecord(jobs[k], fallback, client, reply(k), show))
  }

  /** The loop of index(): records in order until the first exception, which ends it. */
  function Build(attempts: seq<Attempt>): Progress
  {
    if attempts == [] then Progress([], None)
    else
      var p := Build(attempts[..|attempts| - 1]);
      if p.fault.Some? then p
      else match attempts[|attempts| - 1]
        case Success(r) => Progress(p.built + [r], None)
        case Failure(e) => Progress(p.built, Some(e))
  }

  /** The records among `records` whose insert reported them saved. */
  function SavedOf(records: seq<Records.JobRecord>, insert: nat -> InsertOutcome): seq<Records.JobRecord>
  {
    if records == [] then []
    else
      SavedOf(records[..|records| - 1], insert)
        + (if insert(|records| - 1) == Saved then [records[|records| - 1]] else [])
  }

  /** The response once the loop has ended, normally or by an exception:
      `jobs_list` is assigned only after the loop, so a fault leaves it empty,
      while the records handed to the table before the fault stay handed. */
  function Finish(config: Config, p: Progress, insert: nat -> InsertOutcome): Response
  {
    var handed := if config.database then p.built else [];
    var saved := if config.database then SavedOf(p.built, insert) else [];
    match p.fault
    case None => Response(p.built, None, handed, saved)
    case Some(e) => Response([], Some(ErrorPrefix + e.message), handed, saved)
  }

  /** The outcome of one POST to index(). */
  function Respond(config: Config, location: Option<string>, services: Services,
                   show: Json -> string): Response
  {
    if !config.serpApiKey then Response([], Some(MissingKeyMessage), [], [])
    else match services.search
      case SearchRaised(e) => Response([], Some(ErrorPrefix + e.message), [], [])
      case Results(found) =>
        var attempts := Attempts(Kept(found), FormValue(location), config.summarizer, services.reply, show);
        Finish(config, Build(attempts), services.insert)
  }

  /** One more turn of the loop after a prefix that built without a fault. */
  lemma BuildStep(attempts: seq<Attempt>, i: nat)
    requires i < |attempts|
    requires Build(attempts[..i]).fault.None?
    ensures var p := Build(attempts[..i]);
      Build(attempts[..i + 1]) ==
        match attempts[i]
        case Success(r) => Progress(p.built + [r], None)
        case Failure(e) => Progress(p.built, Some(e))
  {
    assert attempts[..i + 1][..i] == attempts[..i];
  }

  lemma SavedStep(records: seq<Records.JobRecord>, r: Records.JobRecord, insert: nat -> InsertOutcome)
    ensures SavedOf(records + [r], insert) ==
      SavedOf(records, insert) + (if insert(|records|) == Saved then [r] else [])
  {
    assert (records + [r])[..|records|] == records;
  }

  /** After a fault on a prefix, the loop never goes further. */
  lemma {:induction false} BuildStops(attempts: seq<Attempt>, n: nat)
    requires n <= |attempts|
    requires Build(attempts[..n]).fault.Some?
    ensures Build(attempts) == Build(attempts[..n])
    decreases |attempts|
  {
    if n < |attempts| {
      var init := attempts[..|attempts| - 1];
      assert init[..n] == attempts[..n];
      BuildStops(init, n);
    } else {
      assert attempts[..n] == attempts;
    }
  }

  /** The loop keeps one record per attempt, in order, and stops at the first
      attempt that raised; without a fault nothing is dropped. */
  lemma {:induction false} BuildSpec(attempts: seq<Attempt>)
    ensures var p := Build(attempts);
      && |p.built| <= |attempts|
      && (forall k :: 0 <= k < |p.built| ==> attempts[k] == Success(p.built[k]))
      && (p.fault.None? ==> |p.built| == |attempts|)
      && (p.fault.Some? ==> |p.built| < |attempts| && attempts[|p.built|] == Failure(p.fault.value))
  {
    if attempts != [] {
      var init := attempts[..|attempts| - 1];
      BuildSpec(init);
      assert forall k :: 0 <= k < |init| ==> init[k] == attempts[k];
    }
  }

  /** The records reported saved are handed records, at most all of them,
      all of them when every insert reported success, and none when none did. */
  lemma {:induction false} SavedSpec(records: seq<Records.JobRecord>, insert: nat -> InsertOutcome)
    ensures |SavedOf(records, insert)| <= |records|
    ensures forall x :: x in SavedOf(records, insert) ==> x in records
    ensures (forall k :: 0 <= k < |records| ==> insert(k) == Saved) ==> SavedOf(records, insert) == records
    ensures (forall k :: 0 <= k < |records| ==> insert(k) != Saved) ==> SavedOf(records, insert) == []
  {
    if records != [] {
      var init := records[..|records| - 1];
      SavedSpec(init, insert);
      assert records == init + [records[|records| - 1]];
    }
  }

  /** An insert that did not report success leaves its record out, so all
      records are reported saved only when every insert reported success. */
  lemma {:induction false} SavedAllOnlyIfAllSaved(records: seq<Records.JobRecord>, insert: nat -> InsertOutcome)
    ensures (|SavedOf(records, insert)| == |records|) <==> (forall k :: 0 <= k < |records| ==> insert(k) == Saved)
  {
    if records != [] {
      var init := records[..|records| - 1];
      SavedSpec(init, insert);
      SavedAllOnlyIfAllSaved(init, insert);
    }
  }

  /** The loop body for the result at position i, as the handler runs it. */
  method RunAttempt(jobs: seq<Object>, fallback: Json, client: bool,
                    reply: nat -> Summary.CallOutcome, show: Json -> string, i: nat) returns (r: Attempt)
    requires i < |jobs|
    ensures r == Attempts(jobs, fallback, client, reply, show)[i]
  {
    r := Records.ProcessJob(jobs[i], fallback, client, reply(i), show);
  }

  /** The save of one record: with a database the record is handed to the
      table, and it is reported saved when the insert says so; a failed or
      raising insert is only logged. */
  method Persist(config: Config, record: Records.JobRecord, i: nat, insert: nat -> InsertOutcome,
                 handed: seq<Records.JobRecord>, saved: seq<Records.JobRecord>)
    returns (handed': seq<Records.JobRecord>, saved': seq<Records.JobRecord>)
    ensures handed' == (if config.database then handed + [record] else handed)
    ensures saved' == (if config.database && insert(i) == Saved then saved + [record] else saved)
  {
    handed', saved' := handed, saved;
    if config.database {
      handed' := handed' + [record];
      if insert(i) == Saved {
        saved' := saved' + [record];
      }
    }
  }

  /** The loop of index() over the kept results, as the handler runs it: it
      appends each record to `processed_jobs` and, with a database, hands it
      to the table before moving on; an exception ends the loop and leaves
      `jobs_list` empty. */
  method RunLoop(config: Config, jobs: seq<Object>, fallback: Json,
                 reply: nat -> Summary.CallOutcome, insert: nat -> InsertOutcome, show: Json -> string)
    returns (response: Response)
    ensures response == Finish(config, Build(Attempts(jobs, fallback, config.summarizer, reply, show)), insert)
  {
    ghost var attempts := Attempts(jobs, fallback, config.summarizer, reply, show);
    var processed: seq<Records.JobRecord> := [];
    var handed: seq<Records.JobRecord> := [];
    var saved: seq<Records.JobRecord> := [];
    var i := 0;
    while i < |jobs|
      invariant 0 <= i <= |jobs|
      invariant |processed| == i
      invariant Build(attempts[..i]) == Progress(processed, None)
      invariant config.database ==> handed == processed && saved == SavedOf(processed, insert)
      invariant !config.database ==> handed == [] && saved == []
    {
      var built := RunAttempt(jobs, fallback, config.summarizer, reply, show, i);
      BuildStep(attempts, i);
      if built.Failure? {
        BuildStops(attempts, i + 1);
        return Response([], Some(ErrorPrefix + built.error.message), handed, saved);
      }
      var record := built.value;
      SavedStep(processed, record, insert);
      handed, saved := Persist(config, record, i, insert, handed, saved);
      processed := processed + [record];
      i := i + 1;
    }
    assert attempts[..i] == attempts;
    return Response(processed, None, handed, saved);
  }

  /** index() as the handler runs it: the key check, the search, then the loop. */
  method Index(config: Config, location: Option<string>, services: Services, show: Json -> string)
    returns (response: Response)
    ensures response == Respond(config, location, services, show)
  {
    if !config.serpApiKey {
      return Response([], Some(MissingKeyMessage), [], []);
    }
    if services.search.SearchRaised? {
      return Response([], Some(ErrorPrefix + services.search.error.message), [], []);
    }
    response := RunLoop(config, Kept(services.search.jobs), FormValue(location),
                        services.reply, services.insert, show);
  }

  /** Without a SerpApi key no search is made: whatever the services would
      have given, the page shows no records and the missing-key message, and
      nothing is handed to the table. */
  lemma MissingKeySkipsSearch(config: Config, location: Option<string>, a: Services, b: Services,
                              show: Json -> string)
    requires !config.serpApiKey
    ensures Respond(config, location, a, show) == Respond(config, location, b, show)
    ensures Respond(config, location, a, show) == Response([], Some(MissingKeyMessage), [], [])
  {
  }

  /** A request that ends without an error shows exactly min(n, 10) records
      for n results, the k-th built from the k-th result with the request's
      location as fallback, and, with a database, each of them was handed to it. */
  lemma FirstTenInOrder(config: Config, location: Option<string>, services: Services, show: Json -> string)
    requires config.serpApiKey && services.search.Results?
    requires Respond(config, location, services, show).error.None?
    ensures var found := services.search.jobs; var r := Respond(config, location, services, show);
      && |r.jobs| == Min(|found|, MaxResults)
      && (forall k :: 0 <= k < |r.jobs| ==>
            Records.MakeRecord(found[k], FormValue(location), config.summarizer, services.reply(k), show)
              == Success(r.jobs[k]))
      && r.handed == (if config.database then r.jobs else [])
  {
    var found := services.search.jobs;
    var attempts := Attempts(Kept(found), FormValue(location), config.summarizer, services.reply, show);
    BuildSpec(attempts);
  }

  /** The loop ends without a fault exactly when every attempt built a record. */
  lemma {:induction false} BuildFaultFree(attempts: seq<Attempt>)
    ensures Build(attempts).fault.None? <==> forall k :: 0 <= k < |attempts| ==> attempts[k].Success?
  {
    BuildSpec(attempts);
  }

  /** When f is the first attempt that raised, the loop stops there with its
      exception, having built the f records before it. */
  lemma {:induction false} BuildFaultAt(attempts: seq<Attempt>, f: nat)
    requires f < |attempts|
    requires forall k :: 0 <= k < f ==> attempts[k].Success?
    requires attempts[f].Failure?
    ensures var p := Build(attempts);
      && p.fault == Some(attempts[f].error)
      && |p.built| == f
      && forall k :: 0 <= k < f ==> attempts[k] == Success(p.built[k])
  {
    BuildSpec(attempts);
  }

  /** With a key and a search that answered, the request ends without an
      error exactly when the record of every kept result can be built; so 15
      results that all build give 10 records on the page. */
  lemma NoErrorIffAllBuild(config: Config, location: Option<string>, services: Services,
                           show: Json -> string)
    requires config.serpApiKey && services.search.Results?
    ensures var found := services.search.jobs;
      Respond(config, location, services, show).error.None? <==>
        forall k :: 0 <= k < Min(|found|, MaxResults) ==>
          Records.MakeRecord(found[k], FormValue(location), config.summarizer, services.reply(k), show).Success?
  {
    var found := services.search.jobs;
    var attempts := Attempts(Kept(found), FormValue(location), config.summarizer, services.reply, show);
    BuildFaultFree(attempts);
    assert Respond(config, location, services, show) == Finish(config, Build(attempts), services.insert);
    if Build(attempts).fault.Some? {
      var k :| 0 <= k < |attempts| && !attempts[k].Success?;
      assert attempts[k] == Records.MakeRecord(found[k], FormValue(location), config.summarizer, services.reply(k), show);
    } else {
      forall k | 0 <= k < Min(|found|, MaxResults)
        ensures Records.MakeRecord(found[k], FormValue(location), config.summarizer, services.reply(k), show).Success?
      {
        assert attempts[k].Success?;
      }
    }
  }

  /** An error never comes with part of the list: when the record of the
      result at position f is the first that cannot be built, the page shows
      no records and the exception's message, yet the f records built before
      it were already handed to the table. */
  lemma FaultEmptiesTheList(config: Config, location: Option<string>, services: Services,
                            show: Json -> string, f: nat)
    requires config.serpApiKey && services.search.Results?
    requires f < Min(|services.search.jobs|, MaxResults)
    requires forall k :: 0 <= k < f ==>
      Records.MakeRecord(services.search.jobs[k], FormValue(location), config.summarizer,
                         services.reply(k), show).Success?
    requires Records.MakeRecord(services.search.jobs[f], FormValue(location), config.summarizer,
                                services.reply(f), show).Failure?
    ensures var r := Respond(config, location, services, show);
      var e := Records.MakeRecord(services.search.jobs[f], FormValue(location), config.summarizer,
                                  services.reply(f), show).error;
      && r.jobs == []
      && r.error == Some(ErrorPrefix + e.message)
      && |r.handed| == (if config.database then f else 0)
      && (forall k :: 0 <= k < |r.handed| ==>
            Records.MakeRecord(services.search.jobs[k], FormValue(location), config.summarizer,
                               services.reply(k), show) == Success(r.handed[k]))
  {
    var found := services.search.jobs;
    var attempts := Attempts(Kept(found), FormValue(location), config.summarizer, services.reply, show);
    BuildFaultAt(attempts, f);
    assert Respond(config, location, services, show) == Finish(config, Build(attempts), services.insert);
  }

  /** The page never shows part of a list: whenever it shows an error, on a
      missing key, a failed search or a record that cannot be built, it shows
      no records. */
  lemma ErrorMeansNoRecords(config: Config, location: Option<string>, services: Services,
                            show: Json -> string)
    ensures var r := Respond(config, location, services, show);
      r.error.Some? ==> r.jobs == []
  {
  }

  /** What the table answers to each insert changes nothing the page shows
      and nothing else that is handed to it: a failed or raising insert does
      not stop the records after it. */
  lemma InsertOutcomesIsolated(config: Config, location: Option<string>, search: SearchOutcome,
                               reply: nat -> Summary.CallOutcome, a: nat -> InsertOutcome,
                               b: nat -> InsertOutcome, show: Json -> string)
    ensures var ra := Respond(config, location, Services(search, reply, a), show);
      var rb := Respond(config, location, Services(search, reply, b), show);
      ra.jobs == rb.jobs && ra.error == rb.error && ra.handed == rb.handed
  {
  }

  /** Two records that differ at most in their summary. */
  predicate SameButSummary(x: Records.JobRecord, y: Records.JobRecord)
  {
    x == y.(summary := x.summary)
  }

  /** Two attempts that raised the same exception, or built records that
      differ at most in their summary. */
  predicate Alike(x: Attempt, y: Attempt)
  {
    (x.Failure? && y.Failure? && x.error == y.error) ||
    (x.Success? && y.Success? && SameButSummary(x.value, y.value))
  }

  /** Attempts alike position by position give loops that stop at the same
      place with the same exception and records alike. */
  lemma {:induction false} BuildAlike(a: seq<Attempt>, b: seq<Attempt>)
    requires |a| == |b|
    requires forall k :: 0 <= k < |a| ==> Alike(a[k], b[k])
    ensures var pa := Build(a); var pb := Build(b);
      && pa.fault == pb.fault
      && |pa.built| == |pb.built|
      && forall k :: 0 <= k < |pa.built| ==> SameButSummary(pa.built[k], pb.built[k])
  {
    if a != [] {
      BuildAlike(a[..|a| - 1], b[..|b| - 1]);
    }
  }

  /** The summarization outcome never decides whether a record is built. */
  lemma MakeRecordIgnoresReply(job: Object, fallback: Json, client: bool,
                               a: Summary.CallOutcome, b: Summary.CallOutcome, show: Json -> string)
    ensures Alike(Records.MakeRecord(job, fallback, client, a, show),
                  Records.MakeRecord(job, fallback, client, b, show))
  {
  }

  /** A summarization call that raises or gives nothing never aborts the
      batch: whatever the calls give back, the request ends with the same
      error or none, and the same records but for their summaries. */
  lemma ReplyOutcomesIsolated(config: Config, location: Option<string>, search: SearchOutcome,
                              a: nat -> Summary.CallOutcome, b: nat -> Summary.CallOutcome,
                              insert: nat -> InsertOutcome, show: Json -> string)
    ensures var ra := Respond(config, location, Services(search, a, insert), show);
      var rb := Respond(config, location, Services(search, b, insert), show);
      && ra.error == rb.error
      && |ra.jobs| == |rb.jobs|
      && forall k :: 0 <= k < |ra.jobs| ==> SameButSummary(ra.jobs[k], rb.jobs[k])
  {
    if config.serpApiKey && search.Results? {
      var jobs := Kept(search.jobs);
      var fallback := FormValue(location);
      var xa := Attempts(jobs, fallback, config.summarizer, a, show);
      var xb := Attempts(jobs, fallback, config.summarizer, b, show);
      forall k | 0 <= k < |jobs| ensures Alike(xa[k], xb[k]) {
        MakeRecordIgnoresReply(jobs[k], fallback, config.summarizer, a(k), b(k), show);
      }
      BuildAlike(xa, xb);
    }
  }
}
