/** What the option parser computes, as functions of the argument words. */
module OptScan {
  import opened CStrings

  datatype ArgType = ArgNone | ArgRequired | ArgOptional

  datatype OptionDef = OptionDef(longname: Option<CStr>, shortname: char, argtype: ArgType)

  const DONE := -1
  const ERR := -2

  const MSG_INVALID: CStr := "invalid option"
  const MSG_MISSING: CStr := "option requires an argument"
  const MSG_TOOMANY: CStr := "option takes no arguments"
  const ERRMSG_SIZE := 64

  predicate IsEnd(o: OptionDef) {
    o.longname.None? && o.shortname == '\0'
  }

  /** The table holds the all-zero entry the API asks for. */
  predicate Terminated(table: seq<OptionDef>) {
    exists i :: 0 <= i < |table| && IsEnd(table[i])
  }

  predicate IsDashDash(arg: CStr) {
    At(arg, 0) == '-' && At(arg, 1) == '-' && At(arg, 2) == '\0'
  }

  predicate IsShort(arg: CStr) {
    At(arg, 0) == '-' && At(arg, 1) != '-' && At(arg, 1) != '\0'
  }

  predicate IsLong(arg: CStr) {
    || (At(arg, 0) == '-' && At(arg, 1) == '-' && At(arg, 2) != '\0')
    || (At(arg, 0) == '/' && At(arg, 1) != '\0')
  }

  predicate IsNonOption(arg: CStr) {
    !IsDashDash(arg) && !IsShort(arg) && !IsLong(arg)
  }

  /** The text before the first '='. */
  function BeforeEq(text: string): string {
    if text == "" || text[0] == '=' then "" else [text[0]] + BeforeEq(text[1..])
  }

  /** The text after the first '=', if there is one. */
  function AfterEq(text: string): Option<string> {
    if text == "" then None else if text[0] == '=' then Some(text[1..]) else AfterEq(text[1..])
  }

  predicate OptsMatch(longname: Option<CStr>, option: CStr) {
    && longname.Some?
    && StrniEq(longname.value, option, |longname.value|)
    && (At(option, |longname.value|) == '\0' || At(option, |longname.value|) == '=')
  }

  /** A '='-free name matches exactly when it is the text before the first '=', ignoring case. */
  lemma MatchIsTextBeforeEq(name: CStr, option: CStr)
    requires '=' !in name
    ensures OptsMatch(Some(name), option) <==> EqFold(name, BeforeEq(option))
  {
    StrniEqPrefix(name, option, |name|);
    BeforeEqShape(option);
    assert name[..|name|] == name;
  }

  lemma {:induction false} BeforeEqShape(text: string)
    ensures |BeforeEq(text)| <= |text| && BeforeEq(text) == text[..|BeforeEq(text)|]
    ensures '=' !in BeforeEq(text)
    ensures AfterEq(text) == if |BeforeEq(text)| == |text| then None else Some(text[|BeforeEq(text)| + 1..])
    ensures |BeforeEq(text)| < |text| ==> text[|BeforeEq(text)|] == '='
  {
    if text != "" && text[0] != '=' {
      BeforeEqShape(text[1..]);
    }
  }

  /** First table entry at or after i, before the end entry, whose short name is c ignoring case. */
  function FindShort(table: seq<OptionDef>, c: char, i: nat): (r: Option<nat>)
    ensures r.Some? ==> i <= r.value < |table| && table[r.value].shortname != '\0'
    decreases |table| - i
  {
    if i >= |table| || IsEnd(table[i]) then None
    else if table[i].shortname != '\0' && Lower(table[i].shortname) == Lower(c) then Some(i)
    else FindShort(table, c, i + 1)
  }

  /** First table entry at or after i, before the end entry, whose long name matches. */
  function FindLong(table: seq<OptionDef>, option: CStr, i: nat): (r: Option<nat>)
    ensures r.Some? ==> i <= r.value < |table| && OptsMatch(table[r.value].longname, option)
    decreases |table| - i
  {
    if i >= |table| || IsEnd(table[i]) then None
    else if OptsMatch(table[i].longname, option) then Some(i)
    else FindLong(table, option, i + 1)
  }

  /** The parser fields a call can change besides optind. */
  datatype Fields = Fields(optarg: Option<string>, optopt: int, msg: string)

  /** What handling one option word does: return value, slots consumed, new fields. */
  datatype Effect = Effect(code: int, used: nat, fields: Fields)

  /** The message text, with the data cut so that quote and terminator still fit. */
  function ErrorText(msg: CStr, data: CStr): (r: CStr)
    requires |msg| <= 27
  {
    var head := msg + " -- '";
    var room := ERRMSG_SIZE - 2 - |head|;
    head + (if |data| <= room then data else data[..room]) + "'"
  }

  function ShortEffect(table: seq<OptionDef>, args: seq<CStr>, f: Fields): (e: Effect)
    requires args != [] && IsShort(args[0])
    ensures e.used <= |args| && e.used <= 2
    ensures e.code >= 0 ==> e.used > 0
    ensures e.code >= 0 || e.code == ERR
  {
    var option := args[0];
    match FindShort(table, option[1], 0)
    case None => Effect(ERR, 0, f.(msg := ErrorText(MSG_INVALID, option)))
    case Some(i) =>
      var d := table[i];
      var tail := if |option| > 2 then Some(option[2..]) else None;
      if d.argtype == ArgNone && tail.Some? then
        Effect(ERR, 0, Fields(None, i, ErrorText(MSG_TOOMANY, option)))
      else if d.argtype == ArgRequired && tail.None? && |args| == 1 then
        var name := if d.longname.Some? then d.longname.value else [d.shortname];
        Effect(ERR, 0, Fields(None, i, ErrorText(MSG_MISSING, name)))
      else if d.argtype == ArgRequired && tail.None? then
        Effect(i, 2, Fields(Some(args[1]), i, ""))
      else
        Effect(i, 1, Fields(tail, i, ""))
  }

  function OptionText(arg: CStr): CStr
    requires IsLong(arg)
  {
    if arg[0] == '/' then arg[1..] else arg[2..]
  }

  function LongEffect(table: seq<OptionDef>, args: seq<CStr>): (e: Effect)
    requires args != [] && IsLong(args[0])
    ensures 1 <= e.used <= |args| && e.used <= 2
    ensures e.code >= 0 || e.code == ERR
  {
    var text := OptionText(args[0]);
    match FindLong(table, text, 0)
    case None => Effect(ERR, 1, Fields(None, 0, ErrorText(MSG_INVALID, text)))
    case Some(i) =>
      var d := table[i];
      var value := AfterEq(text);
      if d.argtype == ArgNone && value.Some? then
        Effect(ERR, 1, Fields(None, i, ErrorText(MSG_TOOMANY, d.longname.value)))
      else if value.Some? || d.argtype != ArgRequired then
        Effect(i, 1, Fields(value, i, ""))
      else if |args| == 1 then
        Effect(ERR, 1, Fields(None, i, ErrorText(MSG_MISSING, d.longname.value)))
      else
        Effect(i, 2, Fields(Some(args[1]), i, ""))
  }

  function HeadEffect(table: seq<OptionDef>, args: seq<CStr>, f: Fields): (e: Effect)
    requires args != [] && !IsNonOption(args[0])
    ensures e.used <= |args| && e.used <= 2
    ensures e.code >= 0 ==> e.used > 0
    ensures e.code >= 0 || e.code == ERR || e.code == DONE
  {
    if IsDashDash(args[0]) then Effect(DONE, 1, f)
    else if IsShort(args[0]) then ShortEffect(table, args, f)
    else LongEffect(table, args)
  }
}
