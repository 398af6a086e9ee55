/**
  The command-line fetch job (`src/main.ts`): reading the credentials from the
  arguments or from `.env.json`, logging in, and fetching the free classrooms of
  the engineering building for each of the twelve periods of a day, one result
  file per period.

  The process arguments, the parsed `.env.json` (absent when the file does not
  exist), the date in Asia/Shanghai, the login page's scripts and the portal's
  answers are parameters; console output and the directory creation are left out,
  and a written file is its path paired with the names it holds.
*/
module FetchJob {
  import opened Wrappers
  import opened JsText
  import opened Types
  import opened JwxtClient

  datatype Credentials = Credentials(username: string, password: string)

  /** `args[i] === flag && args[i + 1]`: the flag at `i` is followed by a non-empty argument. */
  predicate SetsFlag(args: seq<string>, i: int, flag: string)
  {
    0 <= i && i + 1 < |args| && args[i] == flag && args[i + 1] != ""
  }

  /** The value the scan over `args[..n]` leaves for `flag`: the argument after its last setting, or `""`. */
  function LastValue(args: seq<string>, flag: string, n: nat): (v: string)
    requires n <= |args|
    ensures v == "" || v in args
  {
    if n == 0 then ""
    else if SetsFlag(args, n - 1, flag) then args[n]
    else LastValue(args, flag, n - 1)
  }

  /** The credentials the arguments give: both `-u` and `-p` must have been set. */
  function ArgsCredentials(args: seq<string>): (r: Option<Credentials>)
    ensures r.Some? ==> r.value.username != "" && r.value.password != ""
    ensures r.Some? ==> r.value.username in args && r.value.password in args
  {
    var username := LastValue(args, "-u", |args|);
    var password := LastValue(args, "-p", |args|);
    if username != "" && password != "" then Some(Credentials(username, password)) else None
  }

  /** `parseArgs`: the scan over the arguments, each flag keeping the value of its last setting. */
  method ParseArgs(args: seq<string>) returns (creds: Option<Credentials>)
    ensures creds == ArgsCredentials(args)
  {
    var username := "";
    var password := "";
    for i := 0 to |args|
      invariant username == LastValue(args, "-u", i)
      invariant password == LastValue(args, "-p", i)
    {
      if args[i] == "-u" && i + 1 < |args| && args[i + 1] != "" {
        username := args[i + 1];
      } else if args[i] == "-p" && i + 1 < |args| && args[i + 1] != "" {
        password := args[i + 1];
      }
    }
    if username != "" && password != "" {
      creds := Some(Credentials(username, password));
    } else {
      creds := None;
    }
  }

  /**
    The scan's value for a flag is empty exactly when the flag is never set, and
    otherwise it is the argument after the flag's last setting.
  */
  lemma {:induction false} LastValueSpec(args: seq<string>, flag: string, n: nat)
    requires n <= |args|
    ensures LastValue(args, flag, n) == "" <==> forall i :: 0 <= i < n ==> !SetsFlag(args, i, flag)
    ensures LastValue(args, flag, n) != "" ==>
      exists i :: 0 <= i < n && SetsFlag(args, i, flag) && LastValue(args, flag, n) == args[i + 1]
        && forall j :: i < j < n ==> !SetsFlag(args, j, flag)
  {
    if n > 0 && !SetsFlag(args, n - 1, flag) {
      LastValueSpec(args, flag, n - 1);
    }
  }

  /**
    The arguments give credentials exactly when both flags are set, and then each
    is the argument after the last setting of its flag.
  */
  lemma ArgsCredentialsSpec(args: seq<string>)
    ensures ArgsCredentials(args).Some? <==>
      (exists i :: 0 <= i < |args| && SetsFlag(args, i, "-u")) && (exists i :: 0 <= i < |args| && SetsFlag(args, i, "-p"))
    ensures ArgsCredentials(args).Some? ==>
      exists i, j :: && 0 <= i < |args| && SetsFlag(args, i, "-u") && ArgsCredentials(args).value.username == args[i + 1]
        && (forall k :: i < k < |args| ==> !SetsFlag(args, k, "-u"))
        && 0 <= j < |args| && SetsFlag(args, j, "-p") && ArgsCredentials(args).value.password == args[j + 1]
        && (forall k :: j < k < |args| ==> !SetsFlag(args, k, "-p"))
  {
    LastValueSpec(args, "-u", |args|);
    LastValueSpec(args, "-p", |args|);
  }

  /** A flag's value is whatever argument follows it, even another flag. */
  lemma FlagValueMayBeAFlag()
    ensures ArgsCredentials(["-u", "-p", "secret"]) == Some(Credentials("-p", "secret"))
    ensures ArgsCredentials(["-u", "alice", "-p"]) == None
    ensures ArgsCredentials(["-u", "alice", "-p", "", "-p", "pw", "-u", "bob"]) == Some(Credentials("bob", "pw"))
  {
    var a := ["-u", "-p", "secret"];
    assert LastValue(a, "-u", 3) == "-p" by {
      assert !SetsFlag(a, 2, "-u") && !SetsFlag(a, 1, "-u") && SetsFlag(a, 0, "-u");
    }
    assert LastValue(a, "-p", 3) == "secret" by {
      assert !SetsFlag(a, 2, "-p") && SetsFlag(a, 1, "-p");
    }
    var b := ["-u", "alice", "-p"];
    assert LastValue(b, "-p", 3) == "" by {
      assert !SetsFlag(b, 2, "-p") && !SetsFlag(b, 1, "-p") && !SetsFlag(b, 0, "-p");
    }
    var c := ["-u", "alice", "-p", "", "-p", "pw", "-u", "bob"];
    assert LastValue(c, "-u", 8) == "bob" by {
      assert !SetsFlag(c, 7, "-u") && SetsFlag(c, 6, "-u");
    }
    assert LastValue(c, "-p", 8) == "pw" by {
      assert !SetsFlag(c, 7, "-p") && !SetsFlag(c, 6, "-p") && !SetsFlag(c, 5, "-p") && SetsFlag(c, 4, "-p");
    }
  }

  /** `parseArgs() ?? getEnvJSON()`: the arguments win; the file is read only when they give nothing. */
  function ChooseCredentials(fromArgs: Option<Credentials>, fromEnvFile: Option<Credentials>): (r: Option<Credentials>)
    ensures r.Some? <==> fromArgs.Some? || fromEnvFile.Some?
    ensures fromArgs.Some? ==> r == fromArgs
    ensures fromArgs.None? ==> r == fromEnvFile
  {
    if fromArgs.Some? then fromArgs else fromEnvFile
  }

  // ---------------------------------------------------------------------------
  // The per-period query and its result file
  // ---------------------------------------------------------------------------

  /** The request for period `i` of `date`: 本部, 工学馆, any name, one day, period slots `i`-`i`, 500 per page. */
  function PeriodOption(date: string, i: int): RequestOption
  {
    RequestOption(None, Some(Headquarters), Some(Engineering), None, "", 1, Day, date, date,
                  PeriodSlot, i, i, None, Some(500))
  }

  /** The entries of the object literal the job passes for period `i`. */
  function PeriodQuery(date: string, i: int): seq<Entry>
  {
    Entries(PeriodOption(date, i))
  }

  lemma PresentStep(fields: seq<(string, Option<FieldValue>)>, k: nat)
    requires k < |fields|
    ensures Present(fields[k..]) ==
      (if fields[k].1.Some? then [(fields[k].0, fields[k].1.value)] else []) + Present(fields[k + 1..])
  {
    assert fields[k..][1..] == fields[k + 1..];
  }

  lemma PeriodFieldsTail(date: string, i: int)
    ensures Present(Fields(PeriodOption(date, i))[10..]) ==
      [(TimeBeginKey, Number(i)), (TimeEndKey, Number(i)), (PageSizeKey, Number(500))]
  {
    var f := Fields(PeriodOption(date, i));
    assert f[14..] == [];
    PresentStep(f, 13);
    PresentStep(f, 12);
    PresentStep(f, 11);
    PresentStep(f, 10);
  }

  lemma PeriodFieldsDates(date: string, i: int)
    ensures Present(Fields(PeriodOption(date, i))[8..]) ==
      [(DateEndKey, Text(date)), (RoomApplyTimeTypeKey, Number(0)), (TimeBeginKey, Number(i)),
       (TimeEndKey, Number(i)), (PageSizeKey, Number(500))]
  {
    PeriodFieldsTail(date, i);
    var f := Fields(PeriodOption(date, i));
    PresentStep(f, 9);
    PresentStep(f, 8);
  }

  lemma PeriodFieldsDateBegin(date: string, i: int)
    ensures Present(Fields(PeriodOption(date, i))[7..]) ==
      [(DateBeginKey, Text(date)), (DateEndKey, Text(date)), (RoomApplyTimeTypeKey, Number(0)),
       (TimeBeginKey, Number(i)), (TimeEndKey, Number(i)), (PageSizeKey, Number(500))]
  {
    PeriodFieldsDates(date, i);
    var f := Fields(PeriodOption(date, i));
    PresentStep(f, 7);
  }

  lemma PeriodFieldsCycle(date: string, i: int)
    ensures Present(Fields(PeriodOption(date, i))[5..]) ==
      [(CycleCountKey, Number(1)), (CycleTypeKey, Number(1)), (DateBeginKey, Text(date)),
       (DateEndKey, Text(date)), (RoomApplyTimeTypeKey, Number(0)), (TimeBeginKey, Number(i)),
       (TimeEndKey, Number(i)), (PageSizeKey, Number(500))]
  {
    PeriodFieldsDateBegin(date, i);
    var f := Fields(PeriodOption(date, i));
    PresentStep(f, 6);
    PresentStep(f, 5);
  }

  lemma PeriodFieldsName(date: string, i: int)
    ensures Present(Fields(PeriodOption(date, i))[3..]) ==
      [(NameKey, Text("")), (CycleCountKey, Number(1)), (CycleTypeKey, Number(1)),
       (DateBeginKey, Text(date)), (DateEndKey, Text(date)), (RoomApplyTimeTypeKey, Number(0)),
       (TimeBeginKey, Number(i)), (TimeEndKey, Number(i)), (PageSizeKey, Number(500))]
  {
    PeriodFieldsCycle(date, i);
    var f := Fields(PeriodOption(date, i));
    PresentStep(f, 4);
    PresentStep(f, 3);
  }

  lemma PeriodFieldsBuilding(date: string, i: int)
    ensures Present(Fields(PeriodOption(date, i))[2..]) ==
      [(BuildingKey, Number(1)), (NameKey, Text("")), (CycleCountKey, Number(1)), (CycleTypeKey, Number(1)),
       (DateBeginKey, Text(date)), (DateEndKey, Text(date)), (RoomApplyTimeTypeKey, Number(0)),
       (TimeBeginKey, Number(i)), (TimeEndKey, Number(i)), (PageSizeKey, Number(500))]
  {
    PeriodFieldsName(date, i);
    var f := Fields(PeriodOption(date, i));
    PresentStep(f, 2);
  }

  /** The query's entries are those of the literal, in the literal's order, with the tables' codes. */
  lemma PeriodQueryLiteral(date: string, i: int)
    ensures PeriodQuery(date, i) ==
      [(CampusKey, Number(1)), (BuildingKey, Number(1)), (NameKey, Text("")), (CycleCountKey, Number(1)),
       (CycleTypeKey, Number(1)), (DateBeginKey, Text(date)), (DateEndKey, Text(date)),
       (RoomApplyTimeTypeKey, Number(0)), (TimeBeginKey, Number(i)), (TimeEndKey, Number(i)),
       (PageSizeKey, Number(500))]
  {
    PeriodFieldsBuilding(date, i);
    var f := Fields(PeriodOption(date, i));
    assert f[0].1.None? && f[1] == (CampusKey, Some(Number(1)));
    PresentStep(f, 1);
    assert Present(f[1..]) == [(CampusKey, Number(1))] + Present(f[2..]);
    PresentStep(f, 0);
    assert f[0..] == f;
    assert PeriodQuery(date, i) == Present(f[1..]);
  }

  /**
    The portal reads back from each period's form exactly the request meant, and
    that request keeps to the documented bounds of a search.
  */
  lemma PeriodQueryDecodes(date: string, i: int)
    ensures DecodeForm(Stringify(PeriodQuery(date, i))) == Some(PeriodOption(date, i))
    ensures PeriodOption(date, i).WithinDocumentedBounds()
  {
    DecodeStringifiedEntries(PeriodOption(date, i));
  }

  /** Different periods are asked for with different forms. */
  lemma PeriodFormsDiffer(date: string, i: int, j: int)
    requires i != j
    ensures Stringify(PeriodQuery(date, i)) != Stringify(PeriodQuery(date, j))
  {
    PeriodQueryDecodes(date, i);
    PeriodQueryDecodes(date, j);
  }

  const DataDirectory := "free-classroom-data"

  /** `path.join("free-classroom-data", `gxg-${date}-${i}-${i}.json`)`. */
  function FileName(date: string, i: int): (path: string)
    ensures DataDirectory + "/gxg-" + date + "-" <= path
    ensures |path| >= 5 && path[|path| - 5..] == ".json"
  {
    DataDirectory + "/gxg-" + date + "-" + IntToString(i) + "-" + IntToString(i) + ".json"
  }

  /** Distinct periods are written to distinct files, so no period's result overwrites another's. */
  lemma FileNamesDiffer(date: string, i: int, j: int)
    requires i != j
    ensures FileName(date, i) != FileName(date, j)
  {
    var head := DataDirectory + "/gxg-" + date + "-";
    var si := IntToString(i);
    var sj := IntToString(j);
    assert FileName(date, i) == head + (si + "-" + si + ".json");
    assert FileName(date, j) == head + (sj + "-" + sj + ".json");
    if FileName(date, i) == FileName(date, j) {
      var ti := si + "-" + si + ".json";
      var tj := sj + "-" + sj + ".json";
      assert ti == FileName(date, i)[|head|..];
      assert tj == FileName(date, j)[|head|..];
      assert |si| == |sj|;
      assert si == ti[..|si|] && sj == tj[..|sj|];
      ParseIntOfIntToString(i);
      ParseIntOfIntToString(j);
    }
  }

  /** The pieces of `head + s + "-" + s + ".json"`, by position. */
  lemma NumeralPairAt(head: string, s: string)
    ensures var p := head + s + "-" + s + ".json";
      var h := |head|;
      var n := |s|;
      && |p| == h + n + 1 + n + 5
      && p[..h] == head && p[h..h + n] == s && p[h + n] == '-'
      && p[h + n + 1..h + n + 1 + n] == s && p[h + n + 1 + n..] == ".json"
  {
    var p1 := head + s;
    var p2 := p1 + "-";
    var p3 := p2 + s;
    var p := p3 + ".json";
    assert p[..|p3|] == p3 && p[|p3|..] == ".json";
    assert p3[..|p2|] == p2 && p3[|p2|..] == s;
    assert p2[..|p1|] == p1;
    assert p1[..|head|] == head && p1[|head|..] == s;
  }

  /**
    The full form of a period's file name: the directory and date prefix, the
    period's numeral, `-`, the numeral again, and `.json`; each numeral reads
    back as the period.
  */
  lemma FileNameShape(date: string, i: int)
    ensures var path := FileName(date, i);
      var h := |DataDirectory + "/gxg-" + date + "-"|;
      var n := |IntToString(i)|;
      && |path| == h + n + 1 + n + 5
      && path[..h] == DataDirectory + "/gxg-" + date + "-"
      && ParseInt(path[h..h + n]) == Some(i)
      && path[h + n] == '-'
      && ParseInt(path[h + n + 1..h + n + 1 + n]) == Some(i)
      && path[h + n + 1 + n..] == ".json"
  {
    NumeralPairAt(DataDirectory + "/gxg-" + date + "-", IntToString(i));
    ParseIntOfIntToString(i);
  }

  /** The pauses and searches of periods 1..n, in period order. */
  function SearchTrace(date: string, n: nat): seq<Event>
  {
    if n == 0 then [] else SearchTrace(date, n - 1) + SearchEvents(Stringify(PeriodQuery(date, n)))
  }

  /** The searches are posted one per period, in period order, each after the pause. */
  lemma {:induction false} SearchTraceShape(date: string, n: nat)
    ensures |SearchTrace(date, n)| == 2 * n
    ensures forall k :: 0 <= k < n ==>
      SearchTrace(date, n)[2 * k] == Pause(PauseMs) && SearchTrace(date, n)[2 * k + 1] == PostSearch(Stringify(PeriodQuery(date, k + 1)))
  {
    if n > 0 {
      SearchTraceShape(date, n - 1);
      var t := SearchTrace(date, n);
      forall k | 0 <= k < n - 1
        ensures t[2 * k] == Pause(PauseMs) && t[2 * k + 1] == PostSearch(Stringify(PeriodQuery(date, k + 1)))
      {
        assert t[2 * k] == SearchTrace(date, n - 1)[2 * k];
        assert t[2 * k + 1] == SearchTrace(date, n - 1)[2 * k + 1];
      }
    }
  }

  /** How a run ends. */
  datatype Outcome =
    | NoCredentials
    | LoginFailed
    | Saved(files: seq<(string, seq<Option<string>>)>)

  const Periods := 12

  /** The file written for period `i`: its path and the names the portal answered its query with. */
  function PeriodFile(date: string, i: int, respond: Form -> Table): (string, seq<Option<string>>)
  {
    (FileName(date, i), ExtractedNames(respond(Stringify(PeriodQuery(date, i)))))
  }

  /** The loop over the periods: one search per period, in order, and one file per search. */
  method FetchAllPeriods(client: Client, date: string, respond: Form -> Table)
    returns (files: seq<(string, seq<Option<string>>)>)
    requires client.Valid()
    modifies client
    ensures client.Valid()
    ensures client.trace == old(client.trace) + SearchTrace(date, Periods)
    ensures |files| == Periods && forall k :: 0 <= k < Periods ==> files[k] == PeriodFile(date, k + 1, respond)
  {
    files := [];
    var i := 1;
    while i <= Periods
      invariant 1 <= i <= Periods + 1 && |files| == i - 1
      invariant client.Valid()
      invariant client.trace == old(client.trace) + SearchTrace(date, i - 1)
      invariant forall k :: 0 <= k < i - 1 ==> files[k] == PeriodFile(date, k + 1, respond)
    {
      ghost var before := client.trace;
      var names := client.GetFreeClassroom(PeriodQuery(date, i), respond);
      ghost var events := SearchEvents(Stringify(PeriodQuery(date, i)));
      assert client.trace == old(client.trace) + (SearchTrace(date, i - 1) + events) by {
        assert client.trace == before + events;
      }
      files := files + [(FileName(date, i), names)];
      i := i + 1;
    }
  }

  /**
    `main`: without credentials nothing is requested; when the login fails only
    the login exchange takes place; otherwise the twelve periods are fetched in
    order, and period `i`'s names are written to its own file.
  */
  method RunMain(args: seq<string>, envFile: Option<Credentials>, scripts: seq<string>,
                 redirect: Form -> string, respond: Form -> Table, date: string,
                 sha1: string -> string)
    returns (outcome: Outcome, trace: seq<Event>)
    ensures PausedBeforeEveryPost(trace)
    ensures ChooseCredentials(ArgsCredentials(args), envFile).None? ==> outcome == NoCredentials && trace == []
    ensures ChooseCredentials(ArgsCredentials(args), envFile).Some? ==>
      var user := ChooseCredentials(ArgsCredentials(args), envFile).value;
      var form := LoginForm(user.username, user.password, FirstSalt(scripts), sha1);
      && (outcome == LoginFailed <==> !LoginSucceeded(redirect(form)))
      && (outcome == LoginFailed ==> trace == LoginEvents(form))
      && (outcome != LoginFailed ==>
           && outcome.Saved?
           && trace == LoginEvents(form) + SearchTrace(date, Periods)
           && |outcome.files| == Periods
           && forall k :: 0 <= k < Periods ==> outcome.files[k] == PeriodFile(date, k + 1, respond))
  {
    var fromArgs := ParseArgs(args);
    var user := ChooseCredentials(fromArgs, envFile);
    if user.None? {
      return NoCredentials, [];
    }
    var client := new Client();
    var ok := client.Login(user.value.username, user.value.password, scripts, redirect, sha1);
    if !ok {
      return LoginFailed, client.trace;
    }
    var files := FetchAllPeriods(client, date, respond);
    return Saved(files), client.trace;
  }
}
