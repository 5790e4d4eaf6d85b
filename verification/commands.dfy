/** The command lines handed to the 1C platform executable. Each is the
    common part, which opens the information base, then a space, then a
    parameter string particular to the operation. The source builds every
    part from a template whose fields are separated by single spaces, so
    each part is modelled as the join of its words. */
module Commands {
  import opened Wrappers
  import opened Text
  import opened Decimal
  import opened Settings

  /** The three authentication fragments of the common part. */
  datatype AuthFlags = AuthFlags(wa: string, user: string, password: string)

  /** Empty under Windows authentication, otherwise `/WA-`, `/N<user>` and `/P<password>`. */
  function AuthFlagsFor(ib: InfoBase): (f: AuthFlags)
    ensures ib.windowsAuth <==> f == AuthFlags("", "", "")
    ensures !ib.windowsAuth ==> f.wa == "/WA-"
    ensures !ib.windowsAuth ==> StartsWith(f.user, "/N") && f.user[2..] == ib.user
    ensures !ib.windowsAuth ==> StartsWith(f.password, "/P") && f.password[2..] == ib.password
  {
    if ib.windowsAuth then AuthFlags("", "", "")
    else AuthFlags("/WA-", "/N" + ib.user, "/P" + ib.password)
  }

  /** The words of the common part in template order; the two empty words
      at the end are its two trailing spaces. */
  function BaseWords(conf: Config, startType: string): seq<string> {
    [conf.onec.startPath, startType] + BaseOptions(conf) + ["-NoTruncate", "", ""]
  }

  /** Authentication, interface language, connection string and log file. */
  function BaseOptions(conf: Config): seq<string> {
    var f := AuthFlagsFor(conf.infoBase);
    [f.wa, "/DisableStartupDialogs", f.user, f.password,
     "/L", "ru", "/VL", "ru", "/IBConnectionString", conf.infoBase.connectionString,
     "/Out", conf.onec.logFilePath]
  }

  /** The common part of every command line: executable, start type
      (`DESIGNER` or `ENTERPRISE`), authentication, interface language,
      connection string and log file. */
  function BaseCommandLine(conf: Config, startType: string): (r: string)
    ensures StartsWith(r, conf.onec.startPath + " " + startType + " ")
    ensures EndsWith(r, " -NoTruncate  ")
  {
    BaseLineShape(conf.onec.startPath, startType, BaseOptions(conf));
    JoinWords(BaseWords(conf, startType))
  }

  /** Two leading words, any options, and `-NoTruncate` with two empty words. */
  lemma BaseLineShape(a: string, b: string, options: seq<string>)
    ensures var r := JoinWords([a, b] + options + ["-NoTruncate", "", ""]);
            StartsWith(r, a + " " + b + " ") && EndsWith(r, " -NoTruncate  ")
  {
    BaseLineStart(a, b, options);
    JoinEndsWithPadded([a, b] + options, "-NoTruncate");
  }

  lemma BaseLineStart(a: string, b: string, options: seq<string>)
    ensures StartsWith(JoinWords([a, b] + options + ["-NoTruncate", "", ""]), a + " " + b + " ")
  {
    var padded := ["-NoTruncate", "", ""];
    JoinStartsWithTwo(a, b, options + padded);
    assert [a, b] + options + padded == [a, b] + (options + padded);
  }

  /** A command: the common part, one space, then the operation's parameters. */
  function Command(conf: Config, startType: string, params: seq<string>): (r: string)
    requires |params| > 0
    ensures StartsWith(r, BaseCommandLine(conf, startType) + " ")
    ensures r == JoinWords(BaseWords(conf, startType) + params)
  {
    StartsWithConcat(BaseCommandLine(conf, startType) + " ", JoinWords(params));
    JoinAppend(BaseWords(conf, startType), params);
    BaseCommandLine(conf, startType) + " " + JoinWords(params)
  }

  lemma CommandHead(conf: Config, startType: string, params: seq<string>)
    requires |params| > 0
    ensures StartsWith(Command(conf, startType, params), BaseCommandLine(conf, startType) + " " + params[0])
  {
    var b := BaseCommandLine(conf, startType) + " ";
    JoinPrefix(params, 1);
    assert JoinWords(params[..1]) == params[0];
    assert (b + JoinWords(params))[..|b + params[0]|] == b + params[0];
  }

  lemma CommandTail(conf: Config, startType: string, params: seq<string>, k: int)
    requires 0 < k < |params|
    ensures EndsWith(Command(conf, startType, params), " " + JoinWords(params[k..]))
  {
    var b := BaseCommandLine(conf, startType) + " ";
    JoinTail(params, k);
    EndsWithConcat(b, JoinWords(params));
    EndsWithTrans(b + JoinWords(params), JoinWords(params), " " + JoinWords(params[k..]));
  }

  lemma TwoTrailingSpaces(word: string)
    ensures " " + JoinWords([word, "", ""]) == " " + word + "  "
  {
    JoinWords3(word, "", "");
  }

  /** A switch and its value followed by two empty words: the two trailing spaces. */
  lemma SwitchValueText(switch: string, value: string)
    ensures " " + JoinWords([switch, value, "", ""]) == " " + switch + " " + value + "  "
  {
    JoinWords4(switch, value, "", "");
  }

  lemma PasswordAuthWords(conf: Config, startType: string)
    requires !conf.infoBase.windowsAuth
    ensures BaseWords(conf, startType)[2..6]
         == ["/WA-", "/DisableStartupDialogs", "/N" + conf.infoBase.user, "/P" + conf.infoBase.password]
  {
  }

  lemma PasswordAuthText(user: string, password: string)
    ensures JoinWords(["/WA-", "/DisableStartupDialogs", "/N" + user, "/P" + password])
         == "/WA- /DisableStartupDialogs /N" + user + " /P" + password
  {
    JoinWords4("/WA-", "/DisableStartupDialogs", "/N" + user, "/P" + password);
  }

  /** With a login and password, the common part carries the switch turning
      Windows authentication off, the user and the password, around the
      startup-dialog switch. */
  lemma PasswordAuthInCommandLine(conf: Config, startType: string)
    requires !conf.infoBase.windowsAuth
    ensures Contains(BaseCommandLine(conf, startType),
                     "/WA- /DisableStartupDialogs /N" + conf.infoBase.user + " /P" + conf.infoBase.password)
  {
    var ws := BaseWords(conf, startType);
    JoinSliceOccurs(ws, 2, 6);
    PasswordAuthWords(conf, startType);
    PasswordAuthText(conf.infoBase.user, conf.infoBase.password);
  }

  lemma WindowsAuthWords(conf: Config, startType: string)
    requires conf.infoBase.windowsAuth
    ensures BaseWords(conf, startType)[..4] == [conf.onec.startPath, startType, "", "/DisableStartupDialogs"]
    ensures BaseWords(conf, startType)[3..7] == ["/DisableStartupDialogs", "", "", "/L"]
  {
  }

  lemma WindowsAuthText(startPath: string, startType: string)
    ensures JoinWords([startPath, startType, "", "/DisableStartupDialogs"])
         == startPath + " " + startType + "  /DisableStartupDialogs"
    ensures JoinWords(["/DisableStartupDialogs", "", "", "/L"]) == "/DisableStartupDialogs   /L"
  {
    JoinWords4(startPath, startType, "", "/DisableStartupDialogs");
    JoinWords4("/DisableStartupDialogs", "", "", "/L");
  }

  /** Under Windows authentication the common part does not depend on the
      configured login or password, and its three authentication words are
      empty. */
  lemma WindowsAuthIgnoresCredentials(conf: Config, startType: string, user: string, password: string)
    requires conf.infoBase.windowsAuth
    ensures BaseCommandLine(conf, startType)
         == BaseCommandLine(conf.(infoBase := conf.infoBase.(user := user, password := password)), startType)
    ensures StartsWith(BaseCommandLine(conf, startType),
                       conf.onec.startPath + " " + startType + "  /DisableStartupDialogs")
    ensures Contains(BaseCommandLine(conf, startType), "/DisableStartupDialogs   /L")
  {
    var ws := BaseWords(conf, startType);
    assert BaseWords(conf.(infoBase := conf.infoBase.(user := user, password := password)), startType) == ws;
    WindowsAuthWords(conf, startType);
    JoinPrefix(ws, 4);
    JoinSliceOccurs(ws, 3, 7);
    WindowsAuthText(conf.onec.startPath, startType);
  }

  // ---------------------------------------------------------------------------
  // Store password fragment (see README, Findings).

  /** The store password fragment as the source computes it: both branches of
      its test on the empty password yield the password itself, so a
      non-empty password lands in the command line as a bare word. */
  function StoragePasswordArgAsWritten(password: string): (r: string)
    ensures r == password
  {
    if password == "" then "" else password
  }

  /** For the password `secret` the as-written fragment is the bare word
      `secret`, which is no command-line switch. */
  lemma BarePasswordIsNotASwitch()
    ensures StoragePasswordArgAsWritten("secret") == "secret"
    ensures !StartsWith(StoragePasswordArgAsWritten("secret"), "/")
  {
    assert "secret"[..1] == "s";
  }

  /** The store password words as the test on the empty password evidently
      intends: one empty word for an empty password, otherwise the
      repository password switch followed by the password. */
  function StoragePasswordWords(password: string): (ws: seq<string>)
    ensures |ws| > 0
    ensures JoinWords(ws) == "" <==> password == ""
    ensures password != "" ==> ws == ["/ConfigurationRepositoryP", password]
  {
    if password == "" then [""] else ["/ConfigurationRepositoryP", password]
  }

  /** The words naming the store, its user and the password fragment as the
      source writes it, shared by the report and update commands. */
  function RepositoryWords(storage: StorageOptions): seq<string> {
    ["/ConfigurationRepositoryF", storage.path, "/ConfigurationRepositoryN", storage.user,
     StoragePasswordArgAsWritten(storage.password)]
  }

  /** The store words with the corrected password fragment. */
  function CorrectedRepositoryWords(storage: StorageOptions): seq<string> {
    ["/ConfigurationRepositoryF", storage.path, "/ConfigurationRepositoryN", storage.user]
    + StoragePasswordWords(storage.password)
  }

  // ---------------------------------------------------------------------------
  // The four commands.

  function ReportWords(conf: Config, lastVersion: int): seq<string> {
    RepositoryWords(conf.storage)
    + ["/ConfigurationRepositoryReport", conf.storage.reportPath, "-NBegin", ShowInt(lastVersion + 1), "", ""]
  }

  /** Store report for every version after `lastVersion`. */
  function ReportCommand(conf: Config, lastVersion: int): (r: string)
    ensures StartsWith(r, BaseCommandLine(conf, "DESIGNER") + " " + "/ConfigurationRepositoryF")
    ensures EndsWith(r, " -NBegin " + ShowInt(lastVersion + 1) + "  ")
  {
    var params := ReportWords(conf, lastVersion);
    var k := |params| - 4;
    CommandHead(conf, "DESIGNER", params);
    CommandTail(conf, "DESIGNER", params, k);
    assert params[k..] == ["-NBegin", ShowInt(lastVersion + 1), "", ""];
    SwitchValueText("-NBegin", ShowInt(lastVersion + 1));
    assert " " + "-NBegin" + " " == " -NBegin ";
    Command(conf, "DESIGNER", params)
  }

  /** The report command with the corrected password fragment. */
  function CorrectedReportCommand(conf: Config, lastVersion: int): (r: string)
    ensures StartsWith(r, BaseCommandLine(conf, "DESIGNER") + " " + "/ConfigurationRepositoryF")
  {
    var params := CorrectedRepositoryWords(conf.storage)
      + ["/ConfigurationRepositoryReport", conf.storage.reportPath, "-NBegin", ShowInt(lastVersion + 1), "", ""];
    CommandHead(conf, "DESIGNER", params);
    Command(conf, "DESIGNER", params)
  }

  /** The `/C` parameter handed to the data processor: the report path and
      the JSON history path, separated by `;`, in double quotes. */
  function HistoryArgument(storage: StorageOptions): string {
    "/C\"" + storage.reportPath + ";" + storage.jsonReportPath + "\""
  }

  function HistoryWords(conf: Config): seq<string> {
    ["/Execute", conf.onec.reportConvertProcessorPath, HistoryArgument(conf.storage), "", ""]
  }

  /** Conversion of the report into the JSON history by an external data processor. */
  function HistoryCommand(conf: Config): (r: string)
    ensures StartsWith(r, BaseCommandLine(conf, "ENTERPRISE") + " " + "/Execute")
    ensures EndsWith(r, " " + HistoryArgument(conf.storage) + "  ")
  {
    var params := HistoryWords(conf);
    CommandHead(conf, "ENTERPRISE", params);
    CommandTail(conf, "ENTERPRISE", params, 2);
    assert params[2..] == [HistoryArgument(conf.storage), "", ""];
    TwoTrailingSpaces(HistoryArgument(conf.storage));
    Command(conf, "ENTERPRISE", params)
  }

  function UpdateWords(conf: Config, version: int): seq<string> {
    RepositoryWords(conf.storage)
    + ["/ConfigurationRepositoryUpdateCfg", "-force", "-v", ShowInt(version), "", ""]
  }

  /** Update of the information base's configuration to store version `version`. */
  function UpdateCommand(conf: Config, version: int): (r: string)
    ensures StartsWith(r, BaseCommandLine(conf, "DESIGNER") + " " + "/ConfigurationRepositoryF")
    ensures EndsWith(r, " -v " + ShowInt(version) + "  ")
  {
    var params := UpdateWords(conf, version);
    var k := |params| - 4;
    CommandHead(conf, "DESIGNER", params);
    CommandTail(conf, "DESIGNER", params, k);
    assert params[k..] == ["-v", ShowInt(version), "", ""];
    SwitchValueText("-v", ShowInt(version));
    assert " " + "-v" + " " == " -v ";
    Command(conf, "DESIGNER", params)
  }

  function DumpWords(conf: Config): seq<string> {
    ["/DumpConfigToFiles", conf.git.configurationSrcPath, ""]
  }

  /** Dump of the information base's configuration into the repository's source directory. */
  function DumpCommand(conf: Config): (r: string)
    ensures StartsWith(r, BaseCommandLine(conf, "DESIGNER") + " " + "/DumpConfigToFiles")
    ensures EndsWith(r, " " + conf.git.configurationSrcPath + " ")
  {
    var params := DumpWords(conf);
    CommandHead(conf, "DESIGNER", params);
    CommandTail(conf, "DESIGNER", params, 1);
    assert params[1..] == [conf.git.configurationSrcPath, ""];
    assert [conf.git.configurationSrcPath, ""][1..] == [""];
    assert JoinWords(params[1..]) == conf.git.configurationSrcPath + " ";
    Command(conf, "DESIGNER", params)
  }

  /** The report asks for versions from `lastVersion + 1` on: the number at
      the end of the report command reads back as `lastVersion + 1`. */
  lemma ReportStartsAfterLastVersion(conf: Config, lastVersion: int)
    ensures TrailingInt(ReportCommand(conf, lastVersion)) == Some(lastVersion + 1)
  {
    TrailingIntAfter(ReportCommand(conf, lastVersion), " -NBegin ", lastVersion + 1);
  }

  /** The update command names exactly the version asked for. */
  lemma UpdateNamesVersion(conf: Config, version: int)
    ensures TrailingInt(UpdateCommand(conf, version)) == Some(version)
  {
    TrailingIntAfter(UpdateCommand(conf, version), " -v ", version);
  }

  // ---------------------------------------------------------------------------
  // Where the store password lands.

  /** Four consecutive parameter words appear, joined, in the command. */
  lemma WordsInCommand(conf: Config, startType: string, params: seq<string>, i: int,
                       a: string, b: string, c: string, d: string)
    requires 0 <= i && i + 4 <= |params| && params[i..i + 4] == [a, b, c, d]
    ensures Contains(Command(conf, startType, params), a + " " + b + " " + c + " " + d)
  {
    var ws := BaseWords(conf, startType) + params;
    var k := |BaseWords(conf, startType)|;
    assert ws[k + i..k + i + 4] == [a, b, c, d];
    JoinSliceOccurs(ws, k + i, k + i + 4);
    JoinWords4(a, b, c, d);
  }

  /** As written, the report command carries the store password as a bare
      word between the store user and the report switch. */
  lemma ReportPasswordIsBare(conf: Config, lastVersion: int)
    ensures ReportWords(conf, lastVersion)[3..6]
         == [conf.storage.user, conf.storage.password, "/ConfigurationRepositoryReport"]
    ensures Contains(ReportCommand(conf, lastVersion),
                     "/ConfigurationRepositoryN" + " " + conf.storage.user + " " + conf.storage.password
                     + " " + "/ConfigurationRepositoryReport")
  {
    var params := ReportWords(conf, lastVersion);
    WordsInCommand(conf, "DESIGNER", params, 2, "/ConfigurationRepositoryN", conf.storage.user,
                   conf.storage.password, "/ConfigurationRepositoryReport");
  }

  /** As written, the update command carries the store password as a bare
      word between the store user and the update switch. */
  lemma UpdatePasswordIsBare(conf: Config, version: int)
    ensures UpdateWords(conf, version)[3..6]
         == [conf.storage.user, conf.storage.password, "/ConfigurationRepositoryUpdateCfg"]
    ensures Contains(UpdateCommand(conf, version),
                     "/ConfigurationRepositoryN" + " " + conf.storage.user + " " + conf.storage.password
                     + " " + "/ConfigurationRepositoryUpdateCfg")
  {
    var params := UpdateWords(conf, version);
    WordsInCommand(conf, "DESIGNER", params, 2, "/ConfigurationRepositoryN", conf.storage.user,
                   conf.storage.password, "/ConfigurationRepositoryUpdateCfg");
  }

  /** With the correction, a non-empty store password follows the
      repository-password switch, right after the store user. */
  lemma CorrectedReportPassesPassword(conf: Config, lastVersion: int)
    requires conf.storage.password != ""
    ensures Contains(CorrectedReportCommand(conf, lastVersion),
                     conf.storage.user + " " + "/ConfigurationRepositoryP" + " " + conf.storage.password
                     + " " + "/ConfigurationRepositoryReport")
  {
    var params := CorrectedRepositoryWords(conf.storage)
      + ["/ConfigurationRepositoryReport", conf.storage.reportPath, "-NBegin", ShowInt(lastVersion + 1), "", ""];
    WordsInCommand(conf, "DESIGNER", params, 3, conf.storage.user, "/ConfigurationRepositoryP",
                   conf.storage.password, "/ConfigurationRepositoryReport");
  }
}
