/** The text of commands (client/src/app.rs): splitting, trimming, words, command names and
    the values that some of their arguments take. */
module CommandText {
  import opened Types
  import opened Risk

  // ---------- Text ----------

  /** The six ASCII characters the client's language takes as white space. */
  predicate IsSpace(c: char) { '\t' <= c <= '\r' || c == ' ' }

  function SplitOn(s: string, separator: char): (parts: seq<string>)
    ensures |parts| >= 1
    ensures separator in s ==> |parts| >= 2
  {
    if s == "" then [""]
    else
      var rest := SplitOn(s[1..], separator);
      if s[0] == separator then [""] + rest else [[s[0]] + rest[0]] + rest[1..]
  }

  // The parts of a split are the only ones without the separator that join to the text.

  function Join(parts: seq<string>, separator: char): string
    requires parts != []
  {
    if |parts| == 1 then parts[0] else parts[0] + [separator] + Join(parts[1..], separator)
  }

  lemma {:induction false} JoinOfSplit(s: string, separator: char)
    ensures Join(SplitOn(s, separator), separator) == s
    ensures forall i | 0 <= i < |SplitOn(s, separator)| :: separator !in SplitOn(s, separator)[i]
  {
    if s != "" {
      JoinOfSplit(s[1..], separator);
      var rest := SplitOn(s[1..], separator);
      if s[0] == separator {
        assert ([""] + rest)[1..] == rest;
      } else {
        var parts := [[s[0]] + rest[0]] + rest[1..];
        assert parts[1..] == rest[1..];
        assert forall i | 1 <= i < |parts| :: parts[i] == rest[i];
      }
    }
  }

  lemma {:induction false} SplitOfJoin(parts: seq<string>, separator: char)
    requires parts != [] && forall i | 0 <= i < |parts| :: separator !in parts[i]
    ensures SplitOn(Join(parts, separator), separator) == parts
    decreases |parts|
  {
    if |parts| == 1 {
      SplitOfPart(parts[0], separator);
    } else {
      SplitOfJoin(parts[1..], separator);
      SplitAfterPart(parts[0], Join(parts[1..], separator), separator);
    }
  }

  lemma {:induction false} SplitOfPart(part: string, separator: char)
    requires separator !in part
    ensures SplitOn(part, separator) == [part]
  {
    if part != "" {
      SplitOfPart(part[1..], separator);
      assert part == [part[0]] + part[1..];
    }
  }

  lemma {:induction false} SplitAfterPart(part: string, rest: string, separator: char)
    requires separator !in part
    ensures SplitOn(part + [separator] + rest, separator) == [part] + SplitOn(rest, separator)
  {
    var s := part + [separator] + rest;
    if part == "" {
      assert s[1..] == rest;
    } else {
      SplitAfterPart(part[1..], rest, separator);
      assert s[1..] == part[1..] + [separator] + rest;
      assert part == [part[0]] + part[1..] && s[0] == part[0];
      assert ([part[1..]] + SplitOn(rest, separator))[1..] == SplitOn(rest, separator);
    }
  }

  function TrimLeft(s: string): string {
    if s != "" && IsSpace(s[0]) then TrimLeft(s[1..]) else s
  }

  function TrimRight(s: string): string {
    if s != "" && IsSpace(s[|s| - 1]) then TrimRight(s[..|s| - 1]) else s
  }

  function Trim(s: string): string { TrimRight(TrimLeft(s)) }

  function FirstWord(s: string): (w: string)
    ensures |w| <= |s| && (s != "" && !IsSpace(s[0]) ==> |w| > 0)
  {
    if s == "" || IsSpace(s[0]) then "" else [s[0]] + FirstWord(s[1..])
  }

  function Words(s: string): seq<string>
    decreases |s|
  {
    if s == "" then []
    else if IsSpace(s[0]) then Words(s[1..])
    else [FirstWord(s)] + Words(s[|FirstWord(s)|..])
  }

  function UpperCase(s: string): string {
    if s == "" then ""
    else [if 'a' <= s[0] <= 'z' then s[0] - 'a' + 'A' else s[0]] + UpperCase(s[1..])
  }

  // ---------- Commands ----------

  datatype Command =
    | BuyCmd | SellCmd | BuyRisk | SellRisk | CancelCmd | CancelAll | Close | SetSymbol | ShowPositions
    | ShowOrders | TrailingStop | Help | Chart | Timeframe | Level | ClearLevel | Sound | ActivityStop

  function MatchCommand(word: string): Option<Command> {
    if word == "buy" || word == "b" then Some(BuyCmd)
    else if word == "sell" || word == "s" then Some(SellCmd)
    else if word == "buyrisk" || word == "br" then Some(BuyRisk)
    else if word == "sellrisk" || word == "sr" then Some(SellRisk)
    else if word == "cancel" || word == "c" then Some(CancelCmd)
    else if word == "cancelall" || word == "ca" then Some(CancelAll)
    else if word == "close" || word == "cl" then Some(Close)
    else if word == "symbol" || word == "sym" then Some(SetSymbol)
    else if word == "positions" || word == "pos" then Some(ShowPositions)
    else if word == "orders" || word == "ord" then Some(ShowOrders)
    else if word == "ts" then Some(TrailingStop)
    else if word == "help" || word == "h" then Some(Help)
    else if word == "chart" || word == "ch" then Some(Chart)
    else if word == "tf" then Some(Timeframe)
    else if word == "level" || word == "lv" then Some(Level)
    else if word == "clevel" || word == "clv" then Some(ClearLevel)
    else if word == "sound" || word == "snd" then Some(Sound)
    else if word == "activityStop" || word == "as" then Some(ActivityStop)
    else None
  }

  // ---------- Pipes ----------

  predicate Piped(command: string) { ';' !in command && '|' in command }

  function TrimAll(parts: seq<string>): (trimmed: seq<string>)
    ensures |trimmed| == |parts|
  {
    seq(|parts|, i requires 0 <= i < |parts| => Trim(parts[i]))
  }

  /** The actions that wait behind the first command. */
  function Waiting(command: string): (actions: seq<string>)
    ensures Piped(command) ==> actions != []
  {
    TrimAll(SplitOn(command, '|'))[1..]
  }

  function SideOf(first: string): Side {
    var words := Words(first);
    if words == [] then Buy
    else match MatchCommand(words[0])
      case Some(SellRisk) => Sell
      case Some(SellCmd) => Sell
      case _ => Buy
  }

  /** The first word is one of the four names of the two selling commands. */
  predicate StartsWithSell(command: string) {
    Words(command) != [] && Words(command)[0] in ["sell", "s", "sellrisk", "sr"]
  }

  // ---------- Words of typed text ----------

  predicate IsWord(w: string) {
    w != "" && forall i | 0 <= i < |w| :: !IsSpace(w[i])
  }

  lemma {:induction false} WordsOfSpaced(word: string, rest: string)
    requires IsWord(word)
    ensures FirstWord(word + " " + rest) == word
    ensures Words(word + " " + rest) == [word] + Words(rest)
  {
    var s := word + " " + rest;
    FirstWordStops(word, " " + rest);
    assert s == word + (" " + rest);
    assert s[|word|..] == " " + rest;
    assert (" " + rest)[1..] == rest;
  }

  lemma {:induction false} FirstWordStops(word: string, rest: string)
    requires forall i | 0 <= i < |word| :: !IsSpace(word[i])
    requires rest == "" || IsSpace(rest[0])
    ensures FirstWord(word + rest) == word
  {
    if word == "" {
      assert word + rest == rest;
    } else {
      FirstWordStops(word[1..], rest);
      assert (word + rest)[1..] == word[1..] + rest;
    }
  }

  lemma {:induction false} NamesOfStops()
    ensures MatchCommand("as") == Some(ActivityStop) && MatchCommand("ts") == Some(TrailingStop)
    ensures MatchCommand("sym") == Some(SetSymbol)
  {
  }

  lemma {:induction false} WordsOfThree(a: string, b: string, c: string)
    requires IsWord(a) && IsWord(b) && IsWord(c)
    ensures Words(a + " " + (b + " " + c)) == [a, b, c]
  {
    WordsOfSpaced(a, b + " " + c);
    WordsOfSpaced(b, c);
    WordsOfOne(c);
  }

  lemma {:induction false} WordsOfOne(w: string)
    requires IsWord(w)
    ensures Words(w) == [w]
  {
    FirstWordStops(w, "");
    assert w + "" == w && w[|w|..] == "";
  }

  /** Whatever is typed between pipes waits, trimmed and in order, if no part contains a
      pipe or a semicolon. */
  lemma {:induction false} TypedPartsWait(first: string, actions: seq<string>)
    requires actions != []
    requires forall part | part in [first] + actions :: '|' !in part && ';' !in part
    ensures Piped(Join([first] + actions, '|')) && Waiting(Join([first] + actions, '|')) == TrimAll(actions)
    ensures TrimAll(SplitOn(Join([first] + actions, '|'), '|'))[0] == Trim(first)
  {
    var parts := [first] + actions;
    forall i | 0 <= i < |parts| ensures '|' !in parts[i] { assert parts[i] in parts; }
    SplitOfJoin(parts, '|');
    forall i | 0 <= i < |parts| ensures ';' !in parts[i] { assert parts[i] in parts; }
    JoinLacks(parts, '|', ';');
    assert TrimAll(parts)[1..] == TrimAll(actions);
  }

  lemma {:induction false} JoinLacks(parts: seq<string>, separator: char, other: char)
    requires parts != [] && other != separator && forall i | 0 <= i < |parts| :: other !in parts[i]
    ensures other !in Join(parts, separator)
    ensures |parts| > 1 ==> separator in Join(parts, separator)
  {
    if |parts| > 1 {
      JoinLacks(parts[1..], separator, other);
      assert Join(parts, separator)[|parts[0]|] == separator;
    }
  }

  lemma {:induction false} WordsOfTwo(a: string, b: string)
    requires IsWord(a) && IsWord(b)
    ensures Words(a + " " + b) == [a, b]
  {
    WordsOfSpaced(a, b);
    WordsOfOne(b);
  }

  lemma {:induction false} TrimOfTwo(a: string, b: string)
    requires IsWord(a) && IsWord(b)
    ensures Trim(a + " " + b) == a + " " + b
  {
    var s := a + " " + b;
    assert s[0] == a[0] && s[|s| - 1] == b[|b| - 1];
  }

  // ---------- Values ----------

  /** The number parsers are the language's own; they come as parameters. */
  datatype Numbers = Numbers(decimal: string -> Option<real>, unsigned: string -> Option<nat>)

  function TrimPercent(s: string): string {
    if s != "" && s[|s| - 1] == '%' then TrimPercent(s[..|s| - 1]) else s
  }

  function ParseValue(n: Numbers, s: string): Option<Value> {
    if s != "" && s[|s| - 1] == '%' then
      match n.decimal(TrimPercent(s))
      case None => None
      case Some(percent) => Some(Percent(percent))
    else if '/' in s then
      var parts := SplitOn(s, '/');
      if |parts| == 2 && n.unsigned(parts[0]).Some? && n.unsigned(parts[1]).Some? && n.unsigned(parts[1]).value > 0
      then Some(Ratio(n.unsigned(parts[0]).value, n.unsigned(parts[1]).value))
      else None
    else
      match n.decimal(s)
      case None => None
      case Some(price) => Some(Absolute(price))
  }

  /** Two numbers with a slash between them are a ratio exactly when the second is positive;
      the first may be zero. */
  lemma {:induction false} RatioParsesIff(n: Numbers, a: string, b: string)
    requires '/' !in a && '/' !in b && b != "" && b[|b| - 1] != '%'
    requires n.unsigned(a).Some? && n.unsigned(b).Some?
    ensures ParseValue(n, a + "/" + b) ==
            if n.unsigned(b).value > 0 then Some(Ratio(n.unsigned(a).value, n.unsigned(b).value)) else None
  {
    var s := a + "/" + b;
    assert s[|a|] == '/' && s[|s| - 1] == b[|b| - 1];
    SplitAfterPart(a, b, '/');
    SplitOfPart(b, '/');
  }

  /** A number followed by a percent sign is that percentage. */
  lemma {:induction false} PercentParses(n: Numbers, a: string)
    requires a != "" && a[|a| - 1] != '%' && n.decimal(a).Some?
    ensures ParseValue(n, a + "%") == Some(Percent(n.decimal(a).value))
  {
    var s := a + "%";
    assert s[..|s| - 1] == a;
    assert TrimPercent(s) == TrimPercent(a) == a;
  }

  /** Anything else is the price it reads as, or nothing. */
  lemma {:induction false} PriceParses(n: Numbers, a: string)
    requires a != "" && a[|a| - 1] != '%' && '/' !in a
    ensures ParseValue(n, a) == match n.decimal(a) case None => None case Some(price) => Some(Absolute(price))
  {
  }

  // ---------- What trimming, splitting into words and upper case mean ----------

  /** Trimming takes white space, and only that, from both ends, and all of it. */
  lemma {:induction false} TrimMeans(s: string) returns (left: string, right: string)
    ensures s == left + Trim(s) + right
    ensures (forall i | 0 <= i < |left| :: IsSpace(left[i])) && forall i | 0 <= i < |right| :: IsSpace(right[i])
    ensures Trim(s) != "" ==> !IsSpace(Trim(s)[0]) && !IsSpace(Trim(s)[|Trim(s)| - 1])
  {
    left := TrimLeftMeans(s);
    right := TrimRightMeans(TrimLeft(s));
    if Trim(s) != "" { assert Trim(s)[0] == TrimLeft(s)[0]; }
    assert s == left + (Trim(s) + right);
  }

  lemma {:induction false} TrimLeftMeans(s: string) returns (left: string)
    ensures s == left + TrimLeft(s) && forall i | 0 <= i < |left| :: IsSpace(left[i])
    ensures TrimLeft(s) != "" ==> !IsSpace(TrimLeft(s)[0])
  {
    left := "";
    if s != "" && IsSpace(s[0]) {
      left := TrimLeftMeans(s[1..]);
      left := [s[0]] + left;
    }
  }

  lemma {:induction false} TrimRightMeans(s: string) returns (right: string)
    ensures s == TrimRight(s) + right && forall i | 0 <= i < |right| :: IsSpace(right[i])
    ensures TrimRight(s) != "" ==> !IsSpace(TrimRight(s)[|TrimRight(s)| - 1])
  {
    right := "";
    if s != "" && IsSpace(s[|s| - 1]) {
      right := TrimRightMeans(s[..|s| - 1]);
      right := right + [s[|s| - 1]];
    }
  }

  /** Words hold no white space, and none is empty. */
  lemma {:induction false} WordsAreWords(s: string)
    ensures forall i | 0 <= i < |Words(s)| :: IsWord(Words(s)[i])
    decreases |s|
  {
    if s != "" {
      if IsSpace(s[0]) {
        WordsAreWords(s[1..]);
      } else {
        FirstWordIsWord(s);
        WordsAreWords(s[|FirstWord(s)|..]);
      }
    }
  }

  lemma {:induction false} FirstWordIsWord(s: string)
    ensures forall i | 0 <= i < |FirstWord(s)| :: !IsSpace(FirstWord(s)[i])
  {
    if s != "" && !IsSpace(s[0]) { FirstWordIsWord(s[1..]); }
  }

  lemma {:induction false} UpperCaseMeans(s: string)
    ensures |UpperCase(s)| == |s|
    ensures forall i | 0 <= i < |s| ::
              UpperCase(s)[i] == if 'a' <= s[i] <= 'z' then s[i] - 'a' + 'A' else s[i]
  {
    if s != "" { UpperCaseMeans(s[1..]); }
  }
}
