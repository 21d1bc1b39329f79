/** http/logs/format.hpp: the compiler from log patterns to item lists, and what
    the compiled items print. */
module Format {
  import opened Text

  datatype Level = UNKNOW | DEBUG | INFO | WARN | ERROR | FATAL | OFF

  /** One log message. Thread ids are opaque text. */
  datatype LogMsg = LogMsg(
    ctime: int, level: Level, line: nat, tid: string, file: string, logger: string, payload: string)

  /** strftime with the local time zone: an unknown function of format and time. */
  type Clock = (string, int) -> string

  function LevelName(level: Level): string {
    match level
    case DEBUG => "DEBUG"
    case INFO => "INFO"
    case WARN => "WARN"
    case ERROR => "ERROR"
    case FATAL => "FATAL"
    case OFF => "OFF"
    case UNKNOW => "UNKNOWN"
  }

  datatype FormatItem =
    | MsgItem | LevelItem | TimeItem(fmt: string) | FileItem | LineItem | ThreadItem
    | LoggerItem | TabItem | NlineItem | OtherItem(str: string)
  {
    function Text(clock: Clock, msg: LogMsg): string {
      match this
      case MsgItem => msg.payload
      case LevelItem => LevelName(msg.level)
      case TimeItem(fmt) => clock(fmt, msg.ctime)
      case FileItem => msg.file
      case LineItem => Decimal(msg.line)
      case ThreadItem => msg.tid
      case LoggerItem => msg.logger
      case TabItem => "\t"
      case NlineItem => "\n"
      case OtherItem(str) => str
    }
  }

  /** A key, empty for literal text, and the text or sub-rule that goes with it. */
  type Rule = (string, string)

  // ------------------------------------------------------- the parser, as code

  /** Everything before the first closing brace. */
  function UpToBrace(s: string): (r: string)
    ensures |r| <= |s|
  {
    if s == "" || s[0] == '}' then "" else [s[0]] + UpToBrace(s[1..])
  }

  lemma {:induction false} UpToBraceIs(s: string)
    ensures var r := UpToBrace(s);
            r <= s && '}' !in r && (|r| < |s| ==> s[|r|] == '}') && (|r| < |s| <==> '}' in s)
  {
    if s != "" && s[0] != '}' {
      UpToBraceIs(s[1..]);
    }
  }

  lemma UpToBraceStep(front: string, s: string)
    requires s != "" && s[0] != '}'
    ensures front + UpToBrace(s) == (front + [s[0]]) + UpToBrace(s[1..])
  {
    Assoc(front, [s[0]], UpToBrace(s[1..]));
  }

  function Literal(val: string): seq<Rule> {
    if val == "" then [] else [("", val)]
  }

  function Then(first: seq<Rule>, rest: Option<seq<Rule>>): Option<seq<Rule>> {
    if rest.None? then None else Some(first + rest.value)
  }

  /** The rules of a pattern's rest when `val` is the literal text collected so
      far. Text after the last directive is dropped. */
  function Scan(p: string, val: string): Option<seq<Rule>>
    decreases |p|
  {
    if p == "" then Some([])
    else if p[0] != '%' then Scan(p[1..], val + [p[0]])
    else if |p| > 1 && p[1] == '%' then Scan(p[2..], val + "%")
    else if |p| == 1 then None
    else if |p| > 2 && p[2] == '{' then
      var sub := UpToBrace(p[3..]);
      if 3 + |sub| == |p| then None
      else Then(Literal(val) + [([p[1]], sub)], Scan(p[4 + |sub|..], ""))
    else Then(Literal(val) + [([p[1]], "")], Scan(p[2..], ""))
  }

  /** At a directive the collected literal comes first, then the directive's rule. */
  lemma ScanAtDirective(p: string, val: string)
    requires p != "" && p[0] == '%' && (|p| > 1 ==> p[1] != '%')
    ensures FirstToken(p).None? ==> Scan(p, val).None?
    ensures FirstToken(p).Some? ==>
              && FirstToken(p).value.0.Directive?
              && var t := FirstToken(p).value;
                 Scan(p, val) == Then(Literal(val) + [([t.0.key], t.0.sub)], Scan(p[t.1..], ""))
  {
  }

  lemma ScanChar(p: string, pos: nat, val: string)
    requires pos < |p| && p[pos] != '%'
    ensures Scan(p[pos..], val) == Scan(p[pos + 1..], val + [p[pos]])
  {
    DropDrop(p, pos, 1);
  }

  lemma ScanPercent(p: string, pos: nat, val: string)
    requires pos + 1 < |p| && p[pos] == '%' && p[pos + 1] == '%'
    ensures Scan(p[pos..], val) == Scan(p[pos + 2..], val + "%")
  {
    DropDrop(p, pos, 2);
  }

  /** One directive taken off: the collected literal and its rule join the order. */
  lemma ScanTaken(p: string, start: nat, pos: nat, order: seq<Rule>, val: string, key: string, sub: string)
    requires start < pos <= |p| && p[start] == '%' && (start + 1 < |p| ==> p[start + 1] != '%')
    requires |key| == 1 && FirstToken(p[start..]) == Some((Directive(key[0], sub), pos - start))
    ensures Then(order, Scan(p[start..], val)) == Then(order + Literal(val) + [(key, sub)], Scan(p[pos..], ""))
  {
    var rule: Rule := (key, sub);
    assert key == [key[0]];
    ScanAtDirective(p[start..], val);
    DropDrop(p, start, pos - start);
    Assoc(order, Literal(val), [rule]);
    ThenTwice(order, Literal(val) + [rule], Scan(p[pos..], ""));
  }

  lemma ThenTwice(a: seq<Rule>, b: seq<Rule>, rest: Option<seq<Rule>>)
    ensures Then(a, Then(b, rest)) == Then(a + b, rest)
  {
    if rest.Some? {
      assert a + (b + rest.value) == a + b + rest.value;
    }
  }

  function CreatItem(rule: Rule): Option<FormatItem> {
    if rule.0 == "d" then Some(TimeItem(rule.1))
    else if rule.0 == "t" then Some(ThreadItem)
    else if rule.0 == "c" then Some(LoggerItem)
    else if rule.0 == "f" then Some(FileItem)
    else if rule.0 == "l" then Some(LineItem)
    else if rule.0 == "p" then Some(LevelItem)
    else if rule.0 == "T" then Some(TabItem)
    else if rule.0 == "m" then Some(MsgItem)
    else if rule.0 == "n" then Some(NlineItem)
    else if rule.0 == "" then Some(OtherItem(rule.1))
    else None
  }

  /** None when some rule has no item, where the source aborts. */
  function Items(rules: seq<Rule>): Option<seq<FormatItem>> {
    if rules == [] then Some([])
    else if CreatItem(rules[0]).None? || Items(rules[1..]).None? then None
    else Some([CreatItem(rules[0]).value] + Items(rules[1..]).value)
  }

  function RunItems(items: seq<FormatItem>, clock: Clock, msg: LogMsg): string {
    if items == [] then "" else items[0].Text(clock, msg) + RunItems(items[1..], clock, msg)
  }

  datatype Compiled = Rejected | Aborted | Compiled(items: seq<FormatItem>)

  function Compile(pattern: string): Compiled {
    match Scan(pattern, "")
    case None => Rejected
    case Some(rules) =>
      match Items(rules)
      case None => Aborted
      case Some(items) => Compiled(items)
  }

  lemma {:induction false} ItemsSnoc(rules: seq<Rule>, last: Rule)
    ensures Items(rules + [last])
            == if Items(rules).None? || CreatItem(last).None? then None
               else Some(Items(rules).value + [CreatItem(last).value])
  {
    if rules == [] {
      assert rules + [last] == [last] && [last][1..] == [];
      if CreatItem(last).Some? {
        assert [CreatItem(last).value] + [] == [] + [CreatItem(last).value];
      }
    } else {
      assert (rules + [last])[1..] == rules[1..] + [last];
      ItemsSnoc(rules[1..], last);
      if Items(rules).Some? && CreatItem(last).Some? {
        Assoc([CreatItem(rules[0]).value], Items(rules[1..]).value, [CreatItem(last).value]);
      }
    }
  }

  lemma {:induction false} ItemsPrefix(rules: seq<Rule>, i: nat)
    requires i < |rules| && Items(rules).Some?
    ensures CreatItem(rules[i]).Some?
  {
    if i > 0 {
      ItemsPrefix(rules[1..], i - 1);
    }
  }

  class Formatter {
    const pattern: string
    var items: seq<FormatItem>

    constructor (pattern: string)
      ensures this.pattern == pattern && items == []
    {
      this.pattern, items := pattern, [];
    }

    /** The first half of parsePattern: the pattern cut into rules. */
    method ScanPattern() returns (ok: bool, fmtOrder: seq<Rule>)
      ensures ok <==> Scan(pattern, "").Some?
      ensures ok ==> Scan(pattern, "") == Some(fmtOrder)
    {
      fmtOrder := [];
      var pos := 0;
      var key, val := "", "";
      assert pattern[0..] == pattern;
      assert Scan(pattern, "").Some? ==> [] + Scan(pattern, "").value == Scan(pattern, "").value;
      while pos < |pattern|
        invariant 0 <= pos <= |pattern|
        invariant Scan(pattern, "") == Then(fmtOrder, Scan(pattern[pos..], val))
      {
        ghost var start := pos;
        if pattern[pos] != '%' {
          ScanChar(pattern, pos, val);
          val := val + [pattern[pos]];
          pos := pos + 1;
          continue;
        }
        if pos + 1 < |pattern| && pattern[pos + 1] == '%' {
          ScanPercent(pattern, pos, val);
          val := val + "%";
          pos := pos + 2;
          continue;
        }
        ghost var order0, val0 := fmtOrder, val;
        if val != "" {
          fmtOrder := fmtOrder + [("", val)];
          val := "";
        }
        assert fmtOrder == order0 + Literal(val0);
        ok, key, val, pos := ScanDirective(pos);
        if !ok {
          ScanAtDirective(pattern[start..], val0);
          return false, fmtOrder;
        }
        ScanTaken(pattern, start, pos, order0, val0, key, val);
        fmtOrder := fmtOrder + [(key, val)];
        key := "";
        val := "";
      }
      assert pattern[pos..] == "";
      assert fmtOrder + [] == fmtOrder;
      return true, fmtOrder;
    }

    /** The part of the loop that handles one directive, from its percent sign. */
    method ScanDirective(start: nat) returns (ok: bool, key: string, val: string, pos: nat)
      requires start < |pattern| && pattern[start] == '%'
      requires start + 1 < |pattern| ==> pattern[start + 1] != '%'
      ensures ok <==> FirstToken(pattern[start..]).Some?
      ensures start < pos <= |pattern|
      ensures ok ==> |key| == 1 && key == [key[0]]
                     && FirstToken(pattern[start..]) == Some((Directive(key[0], val), pos - start))
    {
      key, val := "", "";
      pos := start + 1;
      if pos == |pattern| {
        return false, key, val, pos;
      }
      key := [pattern[pos]];
      pos := pos + 1;
      if pos < |pattern| && pattern[pos] == '{' {
        pos := pos + 1;
        DropDrop(pattern, start, 3);
        val, pos := ScanSubRule(pos);
        if pos == |pattern| {
          return false, key, val, pos;
        }
        pos := pos + 1;
      }
      return true, key, val, pos;
    }

    /** The inner loop of parsePattern, from just after an opening brace. */
    method ScanSubRule(start: nat) returns (val: string, pos: nat)
      requires start <= |pattern|
      ensures val == UpToBrace(pattern[start..]) && pos == start + |val| <= |pattern|
    {
      val, pos := "", start;
      while pos < |pattern| && pattern[pos] != '}'
        invariant start <= pos <= |pattern| && pos == start + |val|
        invariant UpToBrace(pattern[start..]) == val + UpToBrace(pattern[pos..])
      {
        DropDrop(pattern, pos, 1);
        UpToBraceStep(val, pattern[pos..]);
        val := val + [pattern[pos]];
        pos := pos + 1;
      }
    }

    /** `aborted` stands for the process ending in creatItem. */
    method ParsePattern() returns (ok: bool, aborted: bool)
      requires items == []
      modifies this`items
      ensures match Compile(pattern)
              case Rejected => !ok && !aborted && items == []
              case Aborted => aborted
              case Compiled(made) => ok && !aborted && items == made
    {
      var fmtOrder;
      ok, fmtOrder := ScanPattern();
      if !ok {
        return false, false;
      }
      for i := 0 to |fmtOrder|
        invariant Items(fmtOrder[..i]) == Some(items)
      {
        assert fmtOrder[..i + 1] == fmtOrder[..i] + [fmtOrder[i]];
        ItemsSnoc(fmtOrder[..i], fmtOrder[i]);
        var item := CreatItem(fmtOrder[i]);
        if item.None? {
          if Items(fmtOrder).Some? {
            ItemsPrefix(fmtOrder, i);
          }
          return false, true;
        }
        items := items + [item.value];
      }
      assert fmtOrder[..|fmtOrder|] == fmtOrder;
      return true, false;
    }

    method FormatMsg(clock: Clock, msg: LogMsg) returns (out: string)
      ensures out == RunItems(items, clock, msg)
    {
      out := "";
      assert items[0..] == items;
      for i := 0 to |items|
        invariant out + RunItems(items[i..], clock, msg) == RunItems(items, clock, msg)
      {
        assert items[i..][1..] == items[i + 1..];
        Assoc(out, items[i].Text(clock, msg), RunItems(items[i + 1..], clock, msg));
        out := out + items[i].Text(clock, msg);
      }
    }
  }

  // ------------------------------------- a direct interpreter of the pattern

  /** A pattern read character by character: literal characters and directives. */
  datatype Token = Char(c: char) | Directive(key: char, sub: string)

  /** The token a non-empty pattern starts with, and how many characters it takes. */
  function FirstToken(p: string): (r: Option<(Token, nat)>)
    requires p != ""
    ensures r.Some? ==> 1 <= r.value.1 <= |p|
  {
    if p[0] != '%' then Some((Char(p[0]), 1))
    else if |p| == 1 then None
    else if p[1] == '%' then Some((Char('%'), 2))
    else if |p| > 2 && p[2] == '{' then
      var sub := UpToBrace(p[3..]);
      if 3 + |sub| == |p| then None else Some((Directive(p[1], sub), 4 + |sub|))
    else Some((Directive(p[1], ""), 2))
  }

  function Tokens(p: string): Option<seq<Token>>
    decreases |p|
  {
    if p == "" then Some([])
    else
      match FirstToken(p)
      case None => None
      case Some(t) =>
        match Tokens(p[t.1..])
        case None => None
        case Some(ts) => Some([t.0] + ts)
  }

  predicate Known(t: Token) {
    t.Char? || t.key in "dtcflpTmn"
  }

  function TokenText(t: Token, clock: Clock, msg: LogMsg): string {
    match t
    case Char(c) => [c]
    case Directive(key, sub) =>
      if key == 'd' then clock(sub, msg.ctime)
      else if key == 't' then msg.tid
      else if key == 'c' then msg.logger
      else if key == 'f' then msg.file
      else if key == 'l' then Decimal(msg.line)
      else if key == 'p' then LevelName(msg.level)
      else if key == 'T' then "\t"
      else if key == 'm' then msg.payload
      else if key == 'n' then "\n"
      else ""
  }

  predicate HasDirective(ts: seq<Token>) { exists i :: 0 <= i < |ts| && ts[i].Directive? }

  /** The text of the tokens, one by one, up to the last directive. */
  function Render(ts: seq<Token>, clock: Clock, msg: LogMsg): string {
    if HasDirective(ts) then TokenText(ts[0], clock, msg) + Render(ts[1..], clock, msg) else ""
  }

  predicate AllKnown(ts: seq<Token>) { forall i :: 0 <= i < |ts| ==> Known(ts[i]) }

  /** What scanning rules from `val` on means: the collected literal counts only
      if a directive still comes. */
  ghost predicate MeansTokens(rules: Option<seq<Rule>>, val: string, tokens: Option<seq<Token>>, clock: Clock, msg: LogMsg) {
    && (rules.None? <==> tokens.None?)
    && (rules.Some? ==>
          && (Items(rules.value).Some? <==> AllKnown(tokens.value))
          && (Items(rules.value).Some? ==>
                RunItems(Items(rules.value).value, clock, msg)
                == (if HasDirective(tokens.value) then val else "") + Render(tokens.value, clock, msg)))
  }

  lemma KnownHasItem(key: char, sub: string)
    ensures Known(Directive(key, sub)) <==> CreatItem(([key], sub)).Some?
    ensures Known(Directive(key, sub)) ==>
              forall clock: Clock, msg: LogMsg ::
                CreatItem(([key], sub)).value.Text(clock, msg) == TokenText(Directive(key, sub), clock, msg)
  {
    assert [key][0] == key;
    assert forall c: char :: [key] == [c] <==> key == c;
  }

  lemma HasDirectiveCons(t: Token, ts: seq<Token>)
    ensures HasDirective([t] + ts) <==> t.Directive? || HasDirective(ts)
    ensures AllKnown([t] + ts) <==> Known(t) && AllKnown(ts)
    ensures ([t] + ts)[1..] == ts
  {
    if t.Directive? {
      assert ([t] + ts)[0].Directive?;
    } else if HasDirective(ts) {
      var i :| 0 <= i < |ts| && ts[i].Directive?;
      assert ([t] + ts)[i + 1].Directive?;
    }
    if AllKnown([t] + ts) {
      assert Known(([t] + ts)[0]);
      forall i | 0 <= i < |ts| ensures Known(ts[i]) { assert Known(([t] + ts)[i + 1]); }
    }
  }

  lemma LiteralStep(rules: Option<seq<Rule>>, val: string, c: char, tokens: Option<seq<Token>>, clock: Clock, msg: LogMsg)
    requires MeansTokens(rules, val + [c], tokens, clock, msg)
    ensures MeansTokens(rules, val, if tokens.None? then None else Some([Char(c)] + tokens.value), clock, msg)
  {
    if tokens.Some? {
      HasDirectiveCons(Char(c), tokens.value);
      Assoc(val, [c], Render(tokens.value, clock, msg));
    }
  }

  lemma ItemsCons(rule: Rule, rules: seq<Rule>)
    ensures Items([rule] + rules)
            == if CreatItem(rule).None? || Items(rules).None? then None
               else Some([CreatItem(rule).value] + Items(rules).value)
  {
    assert ([rule] + rules)[1..] == rules;
  }

  lemma RunItemsCons(item: FormatItem, items: seq<FormatItem>, clock: Clock, msg: LogMsg)
    ensures RunItems([item] + items, clock, msg) == item.Text(clock, msg) + RunItems(items, clock, msg)
  {
    assert ([item] + items)[1..] == items;
  }

  lemma DirectiveStep(rules: Option<seq<Rule>>, val: string, key: char, sub: string,
                      tokens: Option<seq<Token>>, clock: Clock, msg: LogMsg)
    requires MeansTokens(rules, "", tokens, clock, msg)
    ensures MeansTokens(Then([([key], sub)], rules), "",
                        if tokens.None? then None else Some([Directive(key, sub)] + tokens.value), clock, msg)
  {
    if rules.Some? {
      var rule: Rule := ([key], sub);
      ItemsCons(rule, rules.value);
      KnownHasItem(key, sub);
      HasDirectiveCons(Directive(key, sub), tokens.value);
      if Items([rule] + rules.value).Some? {
        RunItemsCons(CreatItem(rule).value, Items(rules.value).value, clock, msg);
        assert "" + Render(tokens.value, clock, msg) == Render(tokens.value, clock, msg);
      }
    }
  }

  lemma LiteralInFront(val: string, rules: seq<Rule>, clock: Clock, msg: LogMsg)
    ensures Items([("", val)] + rules).Some? <==> Items(rules).Some?
    ensures Items(rules).Some? ==>
              RunItems(Items([("", val)] + rules).value, clock, msg) == val + RunItems(Items(rules).value, clock, msg)
  {
    ItemsCons(("", val), rules);
    if Items(rules).Some? {
      RunItemsCons(OtherItem(val), Items(rules).value, clock, msg);
    }
  }

  lemma FlushStep(rules: Option<seq<Rule>>, val: string, tokens: Option<seq<Token>>, clock: Clock, msg: LogMsg)
    requires MeansTokens(rules, "", tokens, clock, msg)
    requires tokens.Some? ==> HasDirective(tokens.value)
    ensures MeansTokens(Then(Literal(val), rules), val, tokens, clock, msg)
  {
    if rules.Some? {
      var text := Render(tokens.value, clock, msg);
      assert "" + text == text;
      if val == "" {
        assert [] + rules.value == rules.value;
      } else {
        assert Then(Literal(val), rules) == Some([("", val)] + rules.value);
        LiteralInFront(val, rules.value, clock, msg);
      }
    }
  }

  lemma {:induction false} ScanMeansTokens(p: string, val: string, clock: Clock, msg: LogMsg)
    ensures MeansTokens(Scan(p, val), val, Tokens(p), clock, msg)
    decreases |p|
  {
    if p == "" {
    } else if p[0] != '%' {
      ScanMeansTokens(p[1..], val + [p[0]], clock, msg);
      LiteralStep(Scan(p[1..], val + [p[0]]), val, p[0], Tokens(p[1..]), clock, msg);
    } else if |p| > 1 && p[1] == '%' {
      ScanMeansTokens(p[2..], val + "%", clock, msg);
      LiteralStep(Scan(p[2..], val + "%"), val, '%', Tokens(p[2..]), clock, msg);
    } else if FirstToken(p).Some? {
      var t := FirstToken(p).value;
      var rest := p[t.1..];
      ScanMeansTokens(rest, "", clock, msg);
      DirectiveStep(Scan(rest, ""), val, t.0.key, t.0.sub, Tokens(rest), clock, msg);
      if Tokens(rest).Some? {
        HasDirectiveCons(t.0, Tokens(rest).value);
      }
      FlushStep(Then([([t.0.key], t.0.sub)], Scan(rest, "")), val, Tokens(p), clock, msg);
      ScanAtDirective(p, val);
      ThenTwice(Literal(val), [([t.0.key], t.0.sub)], Scan(rest, ""));
    }
  }

  /** Compilation preserves meaning: for every pattern and message the compiled
      items print what the pattern says token by token, with trailing literal
      text dropped; it is rejected exactly when it has no token reading, and
      aborts exactly when some directive has no item. */
  lemma CompilePreservesMeaning(pattern: string, clock: Clock, msg: LogMsg)
    ensures Compile(pattern).Rejected? <==> Tokens(pattern).None?
    ensures Compile(pattern).Aborted? <==> Tokens(pattern).Some? && !AllKnown(Tokens(pattern).value)
    ensures Compile(pattern).Compiled? ==>
              RunItems(Compile(pattern).items, clock, msg) == Render(Tokens(pattern).value, clock, msg)
  {
    ScanMeansTokens(pattern, "", clock, msg);
    if Tokens(pattern).Some? {
      assert "" + Render(Tokens(pattern).value, clock, msg) == Render(Tokens(pattern).value, clock, msg);
    }
  }

  /** The text of all tokens, literal text at the end included. */
  function RenderAll(ts: seq<Token>, clock: Clock, msg: LogMsg): string {
    if ts == [] then "" else TokenText(ts[0], clock, msg) + RenderAll(ts[1..], clock, msg)
  }

  predicate EndsInDirective(ts: seq<Token>) { ts == [] || ts[|ts| - 1].Directive? }

  lemma {:induction false} RenderIsPrefix(ts: seq<Token>, clock: Clock, msg: LogMsg)
    ensures Render(ts, clock, msg) <= RenderAll(ts, clock, msg)
    ensures Render(ts, clock, msg) == RenderAll(ts, clock, msg) <==> EndsInDirective(ts)
  {
    if ts != [] {
      var rest := ts[1..];
      RenderIsPrefix(rest, clock, msg);
      assert ts == [ts[0]] + rest;
      HasDirectiveCons(ts[0], rest);
      if HasDirective(ts) {
        var head := TokenText(ts[0], clock, msg);
        assert Render(rest, clock, msg) == RenderAll(rest, clock, msg)
          <==> head + Render(rest, clock, msg) == head + RenderAll(rest, clock, msg) by {
          DropAppend(head, Render(rest, clock, msg), |head|);
          DropAppend(head, RenderAll(rest, clock, msg), |head|);
        }
      } else {
        assert !ts[0].Directive? && !ts[|ts| - 1].Directive?;
      }
    }
  }

  /** A compiled pattern prints a prefix of what it spells, and all of it if and
      only if it is empty or its last token is a directive. */
  lemma PrintsCompletely(pattern: string, clock: Clock, msg: LogMsg)
    requires Compile(pattern).Compiled?
    ensures Tokens(pattern).Some?
    ensures RunItems(Compile(pattern).items, clock, msg) <= RenderAll(Tokens(pattern).value, clock, msg)
    ensures RunItems(Compile(pattern).items, clock, msg) == RenderAll(Tokens(pattern).value, clock, msg)
            <==> EndsInDirective(Tokens(pattern).value)
  {
    CompilePreservesMeaning(pattern, clock, msg);
    RenderIsPrefix(Tokens(pattern).value, clock, msg);
  }

  lemma TokensStep(p: string, t: (Token, nat), rest: string)
    requires p != "" && FirstToken(p) == Some(t) && p[t.1..] == rest && Tokens(rest).Some?
    ensures Tokens(p) == Some([t.0] + Tokens(rest).value)
  {
  }

  lemma DirectiveThenChar(p: string)
    requires p == "%m!"
    ensures Tokens(p) == Some([Directive('m', ""), Char('!')])
  {
    TokensStep("!", (Char('!'), 1), "");
    TokensStep(p, (Directive('m', ""), 2), "!");
    assert Tokens("!").value == [Char('!')];
    assert [Directive('m', "")] + [Char('!')] == [Directive('m', ""), Char('!')];
  }

  lemma KnownTwo(a: Token, b: Token)
    requires Known(a) && Known(b)
    ensures AllKnown([a, b])
  {
  }

  lemma TextOfTwo(a: Token, b: Token, clock: Clock, msg: LogMsg)
    requires a.Directive? && b.Char?
    ensures Render([a, b], clock, msg) == TokenText(a, clock, msg)
    ensures RenderAll([a, b], clock, msg) == TokenText(a, clock, msg) + TokenText(b, clock, msg)
  {
    assert [a, b][1..] == [b] && [b][1..] == [] && [a, b][0].Directive?;
    assert !HasDirective([b]);
    var x, y := TokenText(a, clock, msg), TokenText(b, clock, msg);
    assert RenderAll([b], clock, msg) == y + "" == y;
    assert Render([b], clock, msg) == "" && x + "" == x;
  }

  /** A pattern that loses text: the exclamation mark is never printed. */
  lemma LosesItsEnd(p: string, clock: Clock, msg: LogMsg)
    requires p == "%m!"
    ensures Compile(p).Compiled? && Tokens(p).Some?
    ensures RunItems(Compile(p).items, clock, msg) == msg.payload
    ensures RenderAll(Tokens(p).value, clock, msg) == msg.payload + "!"
  {
    DirectiveThenChar(p);
    var d, c := Directive('m', ""), Char('!');
    assert "dtcflpTmn"[7] == 'm';
    KnownTwo(d, c);
    TextOfTwo(d, c, clock, msg);
    assert TokenText(d, clock, msg) == msg.payload && TokenText(c, clock, msg) == "!";
    CompilePreservesMeaning(p, clock, msg);
  }

  // ------------------------------------------------------------ what is printed

  /** With this literal text collected, the rest of a pattern prints this. */
  ghost predicate Yields(p: string, val: string, out: string, clock: Clock, msg: LogMsg) {
    && Scan(p, val).Some? && Items(Scan(p, val).value).Some?
    && RunItems(Items(Scan(p, val).value).value, clock, msg) == out
  }

  lemma {:induction false} YieldsText(text: string, rest: string, val: string, out: string, clock: Clock, msg: LogMsg)
    requires '%' !in text && Yields(rest, val + text, out, clock, msg)
    ensures Yields(text + rest, val, out, clock, msg)
    decreases |text|
  {
    if text == "" {
      assert text + rest == rest && val + text == val;
    } else {
      var p := text + rest;
      assert p[0] == text[0] && p[1..] == text[1..] + rest;
      assert val + text == val + [text[0]] + text[1..];
      YieldsText(text[1..], rest, val + [text[0]], out, clock, msg);
    }
  }

  lemma YieldsRules(val: string, rule: Rule, rules: seq<Rule>, out: string, clock: Clock, msg: LogMsg)
    requires CreatItem(rule).Some? && Items(rules).Some? && RunItems(Items(rules).value, clock, msg) == out
    ensures var all := Literal(val) + [rule] + rules;
            && Items(all).Some?
            && RunItems(Items(all).value, clock, msg) == val + (CreatItem(rule).value.Text(clock, msg) + out)
  {
    var rest := [rule] + rules;
    ItemsCons(rule, rules);
    RunItemsCons(CreatItem(rule).value, Items(rules).value, clock, msg);
    if val == "" {
      assert Literal(val) + [rule] + rules == rest;
      var text := CreatItem(rule).value.Text(clock, msg) + out;
      assert "" + text == text;
    } else {
      LiteralInFront(val, rest, clock, msg);
      assert Literal(val) + [rule] + rules == [("", val)] + rest;
    }
  }

  /** A directive without a sub-rule. */
  lemma YieldsKey(key: char, rest: string, val: string, out: string, clock: Clock, msg: LogMsg)
    requires key != '%' && (rest != "" ==> rest[0] != '{')
    requires CreatItem(([key], "")).Some? && Yields(rest, "", out, clock, msg)
    ensures Yields(['%', key] + rest, val, val + (CreatItem(([key], "")).value.Text(clock, msg) + out), clock, msg)
  {
    var p := ['%', key] + rest;
    assert p[0] == '%' && p[1] == key && p[2..] == rest && (|p| > 2 ==> p[2] == rest[0]);
    YieldsRules(val, ([key], ""), Scan(rest, "").value, out, clock, msg);
  }

  /** And with one. */
  lemma YieldsSub(key: char, sub: string, rest: string, val: string, out: string, clock: Clock, msg: LogMsg)
    requires key != '%' && '}' !in sub
    requires CreatItem(([key], sub)).Some? && Yields(rest, "", out, clock, msg)
    ensures Yields(['%', key, '{'] + sub + "}" + rest, val,
                   val + (CreatItem(([key], sub)).value.Text(clock, msg) + out), clock, msg)
  {
    var rule: Rule := ([key], sub);
    assert PrintRule(rule) + rest == ['%', key, '{'] + sub + "}" + rest;
    ScanDirective(rule, rest, val);
    YieldsRules(val, rule, Scan(rest, "").value, out, clock, msg);
  }

  lemma NothingYields(val: string, clock: Clock, msg: LogMsg)
    ensures Yields("", val, "", clock, msg)
  {
  }

  lemma YieldsCompiled(p: string, out: string, clock: Clock, msg: LogMsg)
    requires Yields(p, "", out, clock, msg)
    ensures Compile(p).Compiled? && RunItems(Compile(p).items, clock, msg) == out
  {
  }

  lemma YieldsLevel(clock: Clock, msg: LogMsg)
    ensures Yields(['%', 'p'], "", LevelName(msg.level), clock, msg)
  {
    var level := LevelName(msg.level);
    NothingYields("", clock, msg);
    assert "p" == ['p'];
    YieldsKey('p', "", "", "", clock, msg);
    assert ['%', 'p'] + "" == ['%', 'p'] && "" + (level + "") == level;
  }

  /** The seven levels in print. */
  lemma LevelsPrint(pattern: string, clock: Clock, msg: LogMsg)
    requires pattern == "%p"
    ensures Compile(pattern).Compiled?
    ensures RunItems(Compile(pattern).items, clock, msg)
            == match msg.level
               case DEBUG => "DEBUG"
               case INFO => "INFO"
               case WARN => "WARN"
               case ERROR => "ERROR"
               case FATAL => "FATAL"
               case OFF => "OFF"
               case UNKNOW => "UNKNOWN"
  {
    YieldsLevel(clock, msg);
    assert pattern == ['%', 'p'];
    YieldsCompiled(pattern, LevelName(msg.level), clock, msg);
  }

  /** A text that can stand behind a directive. */
  predicate Plain(text: string) { text != "" && '%' !in text && text[0] != '{' }

  /** A text and a directive in front of what follows. */
  lemma YieldsBoth(text: string, key: char, rest: string, out: string, clock: Clock, msg: LogMsg)
    requires '%' !in text && Known(Directive(key, "")) && key != '%' && (rest != "" ==> rest[0] != '{')
    requires Yields(rest, "", out, clock, msg)
    ensures Yields(text + (['%', key] + rest), "", text + (TokenText(Directive(key, ""), clock, msg) + out), clock, msg)
  {
    KnownHasItem(key, "");
    YieldsKey(key, rest, text, out, clock, msg);
    assert "" + text == text;
    YieldsText(text, ['%', key] + rest, "", text + (TokenText(Directive(key, ""), clock, msg) + out), clock, msg);
  }

  /** The same with the text the directive prints. */
  lemma YieldsField(text: string, key: char, rest: string, field: string, out: string, clock: Clock, msg: LogMsg)
    requires '%' !in text && key in "dtcflpTmn" && (rest != "" ==> rest[0] != '{')
    requires TokenText(Directive(key, ""), clock, msg) == field && Yields(rest, "", out, clock, msg)
    ensures Yields(text + (['%', key] + rest), "", text + (field + out), clock, msg)
    ensures text != "" || rest != "" ==> text + (['%', key] + rest) != ""
    ensures (text + (['%', key] + rest))[0] == if text == "" then '%' else text[0]
  {
    assert key != '%';
    YieldsBoth(text, key, rest, out, clock, msg);
  }

  /** Tab, message and line feed at the end. */
  lemma YieldsEnd(close: string, clock: Clock, msg: LogMsg)
    requires '%' !in close
    ensures Yields(close + (['%', 'T'] + ("" + (['%', 'm'] + ("" + (['%', 'n'] + ""))))), "",
                   close + ("\t" + ("" + (msg.payload + ("" + ("\n" + ""))))), clock, msg)
  {
    NothingYields("", clock, msg);
    YieldsField("", 'n', "", "\n", "", clock, msg);
    var p1, o1 := "" + (['%', 'n'] + ""), "" + ("\n" + "");
    YieldsField("", 'm', p1, msg.payload, o1, clock, msg);
    YieldsField(close, 'T', "" + (['%', 'm'] + p1), "\t", "" + (msg.payload + o1), clock, msg);
  }

  /** File, line and level. */
  lemma YieldsPlace(sep: string, colon: string, rest: string, out: string, clock: Clock, msg: LogMsg)
    requires Plain(sep) && Plain(colon) && rest != "" && rest[0] != '{' && Yields(rest, "", out, clock, msg)
    ensures Yields(sep + (['%', 'f'] + (colon + (['%', 'l'] + (sep + (['%', 'p'] + rest))))), "",
                   sep + (msg.file + (colon + (Decimal(msg.line) + (sep + (LevelName(msg.level) + out))))), clock, msg)
  {
    YieldsField(sep, 'p', rest, LevelName(msg.level), out, clock, msg);
    var p1, o1 := sep + (['%', 'p'] + rest), sep + (LevelName(msg.level) + out);
    YieldsField(colon, 'l', p1, Decimal(msg.line), o1, clock, msg);
    YieldsField(sep, 'f', colon + (['%', 'l'] + p1), msg.file, colon + (Decimal(msg.line) + o1), clock, msg);
  }

  /** Thread and logger. */
  lemma YieldsNames(sep: string, rest: string, out: string, clock: Clock, msg: LogMsg)
    requires Plain(sep) && rest != "" && rest[0] != '{' && Yields(rest, "", out, clock, msg)
    ensures Yields(sep + (['%', 't'] + (sep + (['%', 'c'] + rest))), "",
                   sep + (msg.tid + (sep + (msg.logger + out))), clock, msg)
  {
    YieldsField(sep, 'c', rest, msg.logger, out, clock, msg);
    YieldsField(sep, 't', sep + (['%', 'c'] + rest), msg.tid, sep + (msg.logger + out), clock, msg);
  }

  /** The time at the front. */
  lemma YieldsTime(open: string, sub: string, rest: string, out: string, clock: Clock, msg: LogMsg)
    requires '%' !in open && '}' !in sub && Yields(rest, "", out, clock, msg)
    ensures Yields(open + (['%', 'd', '{'] + sub + "}" + rest), "", open + (clock(sub, msg.ctime) + out), clock, msg)
  {
    assert "d" == ['d'];
    YieldsSub('d', sub, rest, open, out, clock, msg);
    assert "" + open == open;
    YieldsText(open, ['%', 'd', '{'] + sub + "}" + rest, "", open + (clock(sub, msg.ctime) + out), clock, msg);
  }

  /** Time, thread, logger, file, line, level and message, in this order and with
      these texts between them. */
  function Layout(open: string, time: string, sep: string, tid: string, logger: string, file: string,
                  colon: string, line: string, level: string, close: string, tab: string, payload: string,
                  end: string): string
  {
    open + (time + (sep + (tid + (sep + (logger + (sep + (file + (colon + (line + (sep + (level
    + (close + (tab + (payload + end))))))))))))))
  }

  lemma LayoutPrints(open: string, sub: string, sep: string, colon: string, close: string, clock: Clock, msg: LogMsg)
    requires '%' !in open && '}' !in sub && Plain(sep) && Plain(colon) && Plain(close)
    ensures Yields(Layout(open, ['%', 'd', '{'] + sub + "}", sep, ['%', 't'], ['%', 'c'], ['%', 'f'],
                          colon, ['%', 'l'], ['%', 'p'], close, ['%', 'T'], ['%', 'm'], ['%', 'n']), "",
                   Layout(open, clock(sub, msg.ctime), sep, msg.tid, msg.logger, msg.file,
                          colon, Decimal(msg.line), LevelName(msg.level), close, "\t", msg.payload, "\n"),
                   clock, msg)
  {
    YieldsEnd(close, clock, msg);
    var p0, o0 := close + (['%', 'T'] + (['%', 'm'] + ['%', 'n'])), close + ("\t" + (msg.payload + "\n"));
    assert "" + (['%', 'n'] + "") == ['%', 'n'] && "" + (['%', 'm'] + ['%', 'n']) == ['%', 'm'] + ['%', 'n'];
    assert "" + ("\n" + "") == "\n" && "" + (msg.payload + "\n") == msg.payload + "\n";
    YieldsPlace(sep, colon, p0, o0, clock, msg);
    var p1 := sep + (['%', 'f'] + (colon + (['%', 'l'] + (sep + (['%', 'p'] + p0)))));
    var o1 := sep + (msg.file + (colon + (Decimal(msg.line) + (sep + (LevelName(msg.level) + o0)))));
    YieldsNames(sep, p1, o1, clock, msg);
    var p2, o2 := sep + (['%', 't'] + (sep + (['%', 'c'] + p1))), sep + (msg.tid + (sep + (msg.logger + o1)));
    YieldsTime(open, sub, p2, o2, clock, msg);
  }

  lemma FrontPieces(rest: string)
    ensures "[%d{%H:%M:%S}" + rest == "[" + (['%', 'd', '{'] + "%H:%M:%S" + "}" + rest)
    ensures "][%t][%c" + rest == "][" + (['%', 't'] + ("][" + (['%', 'c'] + rest)))
  {
  }

  lemma BackPieces(rest: string)
    ensures "][%f:%l][%p" + rest
            == "][" + (['%', 'f'] + (":" + (['%', 'l'] + ("][" + (['%', 'p'] + rest)))))
    ensures "]%T%m%n" == "]" + (['%', 'T'] + (['%', 'm'] + ['%', 'n']))
  {
  }

  lemma DefaultLayout()
    ensures Layout("[", ['%', 'd', '{'] + "%H:%M:%S" + "}", "][", ['%', 't'], ['%', 'c'], ['%', 'f'],
                   ":", ['%', 'l'], ['%', 'p'], "]", ['%', 'T'], ['%', 'm'], ['%', 'n'])
            == "[%d{%H:%M:%S}" + ("][%t][%c" + ("][%f:%l][%p" + "]%T%m%n"))
  {
    BackPieces("]%T%m%n");
    var p1 := "][%f:%l][%p" + "]%T%m%n";
    FrontPieces(p1);
    FrontPieces("][%t][%c" + p1);
  }

  lemma DefaultText()
    ensures "[%d{%H:%M:%S}" + ("][%t][%c" + ("][%f:%l][%p" + "]%T%m%n")) == "[%d{%H:%M:%S}][%t][%c][%f:%l][%p]%T%m%n"
  {
  }

  /** The default pattern in print. */
  lemma DefaultPatternPrints(pattern: string, clock: Clock, msg: LogMsg)
    requires pattern == "[%d{%H:%M:%S}][%t][%c][%f:%l][%p]%T%m%n"
    ensures Compile(pattern).Compiled?
    ensures RunItems(Compile(pattern).items, clock, msg)
            == "[" + (clock("%H:%M:%S", msg.ctime)
               + ("][" + (msg.tid + ("][" + (msg.logger
               + ("][" + (msg.file + (":" + (Decimal(msg.line) + ("][" + (LevelName(msg.level)
               + ("]" + ("\t" + (msg.payload + "\n"))))))))))))))
  {
    var p := Layout("[", ['%', 'd', '{'] + "%H:%M:%S" + "}", "][", ['%', 't'], ['%', 'c'], ['%', 'f'],
                    ":", ['%', 'l'], ['%', 'p'], "]", ['%', 'T'], ['%', 'm'], ['%', 'n']);
    var out := Layout("[", clock("%H:%M:%S", msg.ctime), "][", msg.tid, msg.logger, msg.file,
                      ":", Decimal(msg.line), LevelName(msg.level), "]", "\t", msg.payload, "\n");
    LayoutPrints("[", "%H:%M:%S", "][", ":", "]", clock, msg);
    YieldsCompiled(p, out, clock, msg);
    DefaultLayout();
    DefaultText();
  }

  // --------------------------------------------------------------- round trip

  predicate IsLiteral(r: Rule) { r.0 == "" && r.1 != "" }

  predicate IsDirective(r: Rule) { |r.0| == 1 && r.0 != "%" && '}' !in r.1 }

  /** No empty or adjacent literals, ending in a directive. */
  predicate Normal(rules: seq<Rule>) {
    && (forall i | 0 <= i < |rules| :: IsLiteral(rules[i]) || IsDirective(rules[i]))
    && (forall i | 0 <= i < |rules| - 1 :: IsDirective(rules[i]) || IsDirective(rules[i + 1]))
    && (rules != [] ==> IsDirective(rules[|rules| - 1]))
  }

  function Escape(s: string): string {
    if s == "" then "" else (if s[0] == '%' then "%%" else [s[0]]) + Escape(s[1..])
  }

  function PrintRule(r: Rule): string {
    if r.0 == "" then Escape(r.1) else "%" + r.0 + "{" + r.1 + "}"
  }

  function Print(rules: seq<Rule>): string {
    if rules == [] then "" else PrintRule(rules[0]) + Print(rules[1..])
  }

  lemma {:induction false} ScanEscaped(s: string, rest: string, val: string)
    ensures Scan(Escape(s) + rest, val) == Scan(rest, val + s)
    decreases |s|
  {
    if s == "" {
      assert Escape(s) + rest == rest && val + s == val;
    } else {
      var head := if s[0] == '%' then "%%" else [s[0]];
      Assoc(head, Escape(s[1..]), rest);
      var p := head + (Escape(s[1..]) + rest);
      assert p[|head|..] == Escape(s[1..]) + rest;
      ScanEscaped(s[1..], rest, val + [s[0]]);
      assert val + [s[0]] + s[1..] == val + s;
      assert s[0] == '%' ==> [s[0]] == "%";
    }
  }

  lemma {:induction false} UpToBraceOf(sub: string, rest: string)
    requires '}' !in sub
    ensures UpToBrace(sub + "}" + rest) == sub
  {
    var s := sub + "}" + rest;
    if sub != "" {
      assert s[1..] == sub[1..] + "}" + rest;
      UpToBraceOf(sub[1..], rest);
    }
  }

  lemma ScanDirective(r: Rule, rest: string, val: string)
    requires IsDirective(r)
    ensures Scan(PrintRule(r) + rest, val) == Then(Literal(val) + [r], Scan(rest, ""))
  {
    var p := PrintRule(r) + rest;
    assert p[0] == '%' && p[1] == r.0[0] && p[2] == '{';
    assert p[3..] == r.1 + "}" + rest;
    UpToBraceOf(r.1, rest);
    assert p[4 + |r.1|..] == rest;
    assert r.0 == [r.0[0]];
    assert r == ([p[1]], r.1);
  }

  lemma NormalTail(rules: seq<Rule>)
    requires Normal(rules) && rules != []
    ensures Normal(rules[1..])
    ensures IsDirective(rules[0]) || (IsLiteral(rules[0]) && rules[1..] != [] && IsDirective(rules[1..][0]))
  {
    var rest := rules[1..];
    assert forall i | 0 <= i < |rest| :: rest[i] == rules[i + 1];
  }

  lemma LiteralThen(val: string, first: Rule, rest: seq<Rule>)
    ensures Then(Literal(val) + [first], Some(rest)) == Some(Literal(val) + ([first] + rest))
  {
    Assoc(Literal(val), [first], rest);
  }

  lemma {:induction false} ScanOfPrint(rules: seq<Rule>, val: string)
    requires Normal(rules) && (val != "" ==> rules != [] && IsDirective(rules[0]))
    ensures Scan(Print(rules), val) == Some(Literal(val) + rules)
    decreases |rules|
  {
    if rules == [] {
      assert Literal(val) + rules == [];
    } else {
      var first, rest := rules[0], rules[1..];
      NormalTail(rules);
      assert rules == [first] + rest;
      if IsDirective(first) {
        ScanOfPrint(rest, "");
        ScanDirective(first, Print(rest), val);
        assert Literal("") + rest == rest;
        LiteralThen(val, first, rest);
      } else {
        ScanEscaped(first.1, Print(rest), "");
        assert "" + first.1 == first.1;
        ScanOfPrint(rest, first.1);
        assert Literal(first.1) == [first];
        assert Literal(val) + rules == rules;
      }
    }
  }

  /** Parsing undoes printing, for every list in normal form. */
  lemma {:induction false} ParseOfPrint(rules: seq<Rule>)
    requires Normal(rules)
    ensures Scan(Print(rules), "") == Some(rules)
  {
    ScanOfPrint(rules, "");
    assert [] + rules == rules;
  }

  lemma {:induction false} ScanIsNormal(p: string, val: string)
    requires Scan(p, val).Some?
    ensures Normal(Scan(p, val).value)
    decreases |p|
  {
    if p == "" {
    } else if p[0] != '%' {
      ScanIsNormal(p[1..], val + [p[0]]);
    } else if |p| > 1 && p[1] == '%' {
      ScanIsNormal(p[2..], val + "%");
    } else {
      var t := FirstToken(p).value;
      ScanIsNormal(p[t.1..], "");
      var rule: Rule := ([t.0.key], t.0.sub);
      var tail := Scan(p[t.1..], "").value;
      if |p| > 2 && p[2] == '{' {
        UpToBraceIs(p[3..]);
      }
      assert IsDirective(rule);
      DirectiveKeepsNormal(Literal(val), rule, tail);
    }
  }

  lemma DirectiveKeepsNormal(lit: seq<Rule>, rule: Rule, tail: seq<Rule>)
    requires IsDirective(rule) && Normal(tail)
    requires lit == [] || (|lit| == 1 && IsLiteral(lit[0]))
    ensures Normal(lit + [rule] + tail)
  {
  }

  /** The rule lists the parser produces are exactly those in normal form, so
      printing what was parsed and parsing again changes nothing. */
  lemma ParsedIsNormal(pattern: string)
    requires Scan(pattern, "").Some?
    ensures Normal(Scan(pattern, "").value)
    ensures Scan(Print(Scan(pattern, "").value), "") == Scan(pattern, "")
  {
    ScanIsNormal(pattern, "");
    ParseOfPrint(Scan(pattern, "").value);
  }

  // ---------------------------------------------------------------- rejection

  /** A lone percent sign, or a sub-rule that is never closed. */
  predicate Dangling(t: string) {
    t == "%" || (|t| >= 3 && t[0] == '%' && t[1] != '%' && t[2] == '{' && '}' !in t[3..])
  }

  /** The first token does not depend on what comes later, unless that is an
      opening brace. */
  lemma FirstTokenLocal(a: string, b: string)
    requires a != "" && FirstToken(a).Some? && (b != "" ==> b[0] == '%')
    ensures FirstToken(a + b) == FirstToken(a)
  {
    if |a| > 2 && a[0] == '%' && a[1] != '%' && a[2] == '{' {
      UpToBraceIs(a[3..]);
      UpToBraceStays(a[3..], b);
      DropAppend(a, b, 3);
    } else if |a| == 2 && b != "" {
      assert (a + b)[2] == b[0];
    }
  }

  lemma {:induction false} UpToBraceStays(x: string, b: string)
    requires |UpToBrace(x)| < |x|
    ensures UpToBrace(x + b) == UpToBrace(x)
  {
    if x[0] != '}' {
      assert (x + b)[1..] == x[1..] + b;
      UpToBraceStays(x[1..], b);
    }
  }

  lemma {:induction false} TokensThenDangling(a: string, b: string)
    requires Tokens(a).Some? && Dangling(b)
    ensures Tokens(a + b).None?
    decreases |a|
  {
    if a == "" {
      assert a + b == b;
      if |b| > 1 {
        UpToBraceIs(b[3..]);
      }
    } else {
      FirstTokenLocal(a, b);
      DropAppend(a, b, FirstToken(a).value.1);
      TokensThenDangling(a[FirstToken(a).value.1..], b);
    }
  }

  lemma {:induction false} RejectedHasDangling(p: string) returns (i: nat)
    requires Tokens(p).None?
    ensures i < |p| && Tokens(p[..i]).Some? && Dangling(p[i..])
    decreases |p|
  {
    if FirstToken(p).None? {
      i := 0;
      assert p[0..] == p;
      if |p| > 2 {
        UpToBraceIs(p[3..]);
      }
    } else {
      var n := FirstToken(p).value.1;
      var j := RejectedHasDangling(p[n..]);
      i := n + j;
      assert p[i..] == p[n..][j..];
      TokensOfPrefix(p, i);
      assert p[..i][n..] == p[n..][..j];
    }
  }

  lemma TokensOfPrefix(p: string, i: nat)
    requires p != "" && FirstToken(p).Some? && FirstToken(p).value.1 <= i < |p| && p[i] == '%'
    ensures FirstToken(p[..i]) == FirstToken(p)
  {
    if |p| > 2 && p[0] == '%' && p[1] != '%' && p[2] == '{' {
      var sub := UpToBrace(p[3..]);
      UpToBraceIs(p[3..]);
      assert p[..i][3..] == sub + "}" + p[4 + |sub|..i];
      UpToBraceOf(sub, p[4 + |sub|..i]);
    }
  }

  /** A pattern is rejected exactly when, after a readable prefix, it dangles. */
  lemma RejectedExactly(pattern: string)
    ensures Compile(pattern).Rejected?
            <==> exists i: nat :: i < |pattern| && Tokens(pattern[..i]).Some? && Dangling(pattern[i..])
  {
    CompilePreservesMeaning(pattern, (f, t) => "", LogMsg(0, INFO, 0, "", "", "", ""));
    if Tokens(pattern).None? {
      var i := RejectedHasDangling(pattern);
    }
    forall i: nat | i < |pattern| && Tokens(pattern[..i]).Some? && Dangling(pattern[i..])
      ensures Tokens(pattern).None?
    {
      TokensThenDangling(pattern[..i], pattern[i..]);
      assert pattern[..i] + pattern[i..] == pattern;
    }
  }
}
