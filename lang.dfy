/**
 * The driver (lib/lang.rs): error reporting with a line and a location,
 * the construction of a `Lang` from an optional script, and the pipeline
 * that scans, parses, resolves and interprets it.
 *
 * The scanner, the parser, the resolver and the interpreter are passed
 * to the pipeline as functions: the pipeline only decides which of them
 * runs and what it returns.
 */
module Lang {
  import opened Wrappers
  import opened Errors
  import Types
  import Values
  import opened Ast

  /** `Lang::report`: a generic runtime error that names the line and the location. */
  function Report(line: nat, location: string, message: string): (e: LangError)
    ensures e.RuntimeError? && e.subtype.GenericError?
    ensures e.subtype.reason == "[line " + Values.NatToString(line) + "] Error " + location + ": " + message
  {
    NewRuntimeError(GenericError("[line " + Values.NatToString(line) + "] Error " + location + ": " + message))
  }

  /** `Lang::error`: the location is "at end " for the end-of-file token and the quoted lexeme otherwise. */
  function Error(token: Token, message: string): (e: LangError)
    ensures token.tokenType == Types.Eof ==> e == Report(token.line, "at end ", message)
    ensures token.tokenType != Types.Eof ==> e == Report(token.line, "at '" + token.lexeme + "'", message)
  {
    if token.tokenType == Types.Eof then Report(token.line, "at end ", message)
    else Report(token.line, "at '" + token.lexeme + "'", message)
  }

  /**
   * `Lang::error_ir`, which `check_token_type2` calls with a token's line
   * and lexeme. Its definition is not part of this model: it is taken to
   * be the report `Error` makes at a token other than the end of the
   * file, the only location those two arguments can name.
   */
  function ErrorIr(line: nat, lexeme: string, message: string): (e: LangError)
    ensures e.RuntimeError? && e.subtype.GenericError?
  {
    Report(line, "at '" + lexeme + "'", message)
  }

  /** For a token other than the end of the file, `ErrorIr` at its line and lexeme is `Error` at the token. */
  lemma ErrorIrIsErrorAtToken(t: Token, message: string)
    requires t.tokenType != Types.Eof
    ensures ErrorIr(t.line, t.lexeme, message) == Error(t, message)
  {
  }

  /** The message and the line can be read back from a report: it ends with ": " and the message. */
  lemma ReportEndsWithMessage(line: nat, location: string, message: string)
    ensures var reason := Report(line, location, message).subtype.reason;
      |reason| >= |message| + 2 &&
      reason[|reason| - |message|..] == message &&
      reason[|reason| - |message| - 2..|reason| - |message|] == ": " &&
      reason[..6 + |Values.NatToString(line)|] == "[line " + Values.NatToString(line)
  {
    var prefix := "[line " + Values.NatToString(line) + "] Error " + location;
    var reason := prefix + ": " + message;
    assert reason == Report(line, location, message).subtype.reason;
    assert reason[|reason| - |message|..] == message;
    assert reason[|reason| - |message| - 2..|reason| - |message|] == ": ";
    assert reason[..6 + |Values.NatToString(line)|] == prefix[..6 + |Values.NatToString(line)|];
  }

  /** The two locations that `Error` uses are different, so an error at the end of the file is told apart from one at a token. */
  lemma ErrorDistinguishesEnd(eof: Token, other: Token, message: string)
    requires eof.tokenType == Types.Eof && other.tokenType != Types.Eof && eof.line == other.line
    ensures Error(eof, message) != Error(other, message)
  {
    var pre := "[line " + Values.NatToString(eof.line) + "] Error ";
    var a := pre + "at end " + ": " + message;
    var b := pre + ("at '" + other.lexeme + "'") + ": " + message;
    assert a[|pre| + 3] == 'e';
    assert b[|pre| + 3] == '\'';
  }

  /**
   * `Lang`: the scanner exists exactly when a script was given, and it
   * holds that script. The interpreter it also owns is not part of this
   * value.
   */
  datatype Lang = Lang(scanner: Option<string>)

  /** `Lang::new`. */
  function New(script: Option<string>): (l: Lang)
    ensures l.scanner.Some? <==> script.Some?
    ensures script.Some? ==> l.scanner.value == script.value
  {
    Lang(if script.Some? then Some(script.value) else None)
  }

  /**
   * `Lang::build_statements`: scan the script, then parse the tokens;
   * without a scanner there is nothing to run.
   */
  function BuildStatements(l: Lang, scan: string -> Result<seq<Token>, LangError>,
                           parse: seq<Token> -> Result<seq<Stmt>, LangError>): (r: Result<seq<Stmt>, LangError>)
    ensures l.scanner.None? ==> r == Ok([])
    ensures l.scanner.Some? && scan(l.scanner.value).Err? ==> r == Err(scan(l.scanner.value).error)
    ensures l.scanner.Some? && scan(l.scanner.value).Ok? ==> r == parse(scan(l.scanner.value).value)
  {
    if l.scanner.None? then Ok([])
    else
      var tokens :- scan(l.scanner.value);
      parse(tokens)
  }

  /** A `Lang` made without a script builds an empty program, whatever the scanner and the parser would do. */
  lemma NoScriptBuildsNothing(scan: string -> Result<seq<Token>, LangError>,
                              parse: seq<Token> -> Result<seq<Stmt>, LangError>)
    ensures BuildStatements(New(None), scan, parse) == Ok([])
  {
  }

  /**
   * `Lang::run`: a scan or parse error is returned unchanged and stops the
   * run before the resolver; otherwise the resolver's error, then the
   * interpreter's, is returned.
   */
  function Run(l: Lang, scan: string -> Result<seq<Token>, LangError>,
               parse: seq<Token> -> Result<seq<Stmt>, LangError>,
               resolve: seq<Stmt> -> Result<(), LangError>,
               interpret: seq<Stmt> -> Result<(), LangError>): (r: Result<(), LangError>)
    ensures BuildStatements(l, scan, parse).Err? ==> r == Err(BuildStatements(l, scan, parse).error)
    ensures BuildStatements(l, scan, parse).Ok? ==>
      var s := BuildStatements(l, scan, parse).value;
      r == (if resolve(s).Err? then resolve(s) else interpret(s))
  {
    var s :- BuildStatements(l, scan, parse);
    var _ :- resolve(s);
    var _ :- interpret(s);
    Ok(())
  }

  /** Running a `Lang` made without a script resolves and interprets the empty program. */
  lemma NoScriptRunsEmptyProgram(scan: string -> Result<seq<Token>, LangError>,
                                 parse: seq<Token> -> Result<seq<Stmt>, LangError>,
                                 resolve: seq<Stmt> -> Result<(), LangError>,
                                 interpret: seq<Stmt> -> Result<(), LangError>)
    ensures Run(New(None), scan, parse, resolve, interpret) ==
      (if resolve([]).Err? then resolve([]) else interpret([]))
  {
  }

  /**
   * `Lang::build_and_run_statements`, one line of the prompt: scans,
   * parses, resolves and interprets `script`, stopping at the first error.
   */
  function BuildAndRunStatements(script: string, scan: string -> Result<seq<Token>, LangError>,
                                 parse: seq<Token> -> Result<seq<Stmt>, LangError>,
                                 resolve: seq<Stmt> -> Result<(), LangError>,
                                 interpret: seq<Stmt> -> Result<(), LangError>): (r: Result<(), LangError>)
    ensures scan(script).Err? ==> r == Err(scan(script).error)
    ensures scan(script).Ok? && parse(scan(script).value).Err? ==> r == Err(parse(scan(script).value).error)
    ensures r.Ok? ==>
      && scan(script).Ok? && parse(scan(script).value).Ok?
      && resolve(parse(scan(script).value).value).Ok? && interpret(parse(scan(script).value).value).Ok?
  {
    var tokens :- scan(script);
    var statements :- parse(tokens);
    var _ :- resolve(statements);
    var _ :- interpret(statements);
    Ok(())
  }

  /**
   * Running one line at the prompt on a fresh interpreter is the same as
   * running a `Lang` made from that line. The prompt keeps one interpreter
   * for all its lines, so from the second line on the globals the earlier
   * lines defined are visible too; that state is not part of this model.
   */
  lemma BuildAndRunIsRunOfScript(script: string, scan: string -> Result<seq<Token>, LangError>,
                                 parse: seq<Token> -> Result<seq<Stmt>, LangError>,
                                 resolve: seq<Stmt> -> Result<(), LangError>,
                                 interpret: seq<Stmt> -> Result<(), LangError>)
    ensures BuildAndRunStatements(script, scan, parse, resolve, interpret)
      == Run(New(Some(script)), scan, parse, resolve, interpret)
  {
  }
}
