/** Decisions, the management commands that carry them, and the response each command expects. */
module Commands {
  import opened Basics
  import opened Text
  import Decimal

  datatype Decision =
    | Allow(cid: string, kid: string)                              // client-auth
    | AllowNT(cid: string, kid: string)                            // client-auth-nt
    | Deny(cid: string, kid: string, reason: string)               // client-deny
    | Pending(cid: string, kid: string, url: string, timeout: int) // client-pending-auth
    | Kill(cid: string, mode: string)                              // client-kill

  function EscapeReason(reason: string): string {
    if reason == "" then ""
    else
      var c := reason[0];
      (if c == '\\' then "\\\\" else if c == '\"' then "'" else [c]) + EscapeReason(reason[1..])
  }

  function Verb(d: Decision): string {
    match d
    case Allow(_, _) => "client-auth"
    case AllowNT(_, _) => "client-auth-nt"
    case Deny(_, _, _) => "client-deny"
    case Pending(_, _, _, _) => "client-pending-auth"
    case Kill(_, _) => "client-kill"
  }

  function Arguments(d: Decision): string {
    match d
    case Allow(cid, kid) => cid + " " + kid + "\nEND"
    case AllowNT(cid, kid) => cid + " " + kid
    case Deny(cid, kid, reason) =>
      cid + " " + kid + " \"" + EscapeReason(if reason == "" then "denied" else reason) + "\""
    case Pending(cid, kid, url, timeout) =>
      cid + " " + kid + " \"WEB_AUTH::" + url + "\" " + Decimal.PrintInt(timeout)
    case Kill(cid, mode) =>
      if mode == "" then cid else cid + " " + mode
  }

  /** The management command of a decision. */
  function ToCommand(d: Decision): string {
    Verb(d) + " " + Arguments(d)
  }

  datatype Contract = SingleLineAck | MultiLineUntilEnd

  const StatusCommand := "status 3"

  /** `commandContract`: the response shape registered for a command, if any. */
  function ContractOf(command: string): Option<Contract> {
    var c := TrimSpace(command);
    if c == StatusCommand then Some(MultiLineUntilEnd)
    else if || c == "hold release"
            || HasPrefix(c, "client-auth ")
            || HasPrefix(c, "client-auth-nt ")
            || HasPrefix(c, "client-deny ")
            || HasPrefix(c, "client-pending-auth ")
            || HasPrefix(c, "client-kill ") then Some(SingleLineAck)
    else None
  }

  lemma {:induction false} TrimNoLeft(s: string)
    requires s != "" && !IsSpace(s[0])
    ensures TrimSpace(s) == TrimRight(s)
  {
  }

  lemma {:induction false} TrimBlankTail(p: string, rest: string)
    requires Blank(rest)
    ensures TrimRight(p + rest) == TrimRight(p)
  {
    hide IsSpace, TrimRight;
    var s := p + rest;
    assert forall i :: |p| <= i < |s| ==> s[i] == rest[i - |p|];
    TrimRightUnique(s, TrimRight(p));
  }

  lemma {:induction false} TrimVisibleTail(p: string, rest: string)
    requires !Blank(rest)
    ensures HasPrefix(TrimRight(p + rest), p)
  {
    hide IsSpace, TrimRight;
    var s, r := p + rest, TrimRight(p + rest);
    var k :| 0 <= k < |rest| && !IsSpace(rest[k]);
    assert s[|p| + k] == rest[k];
    assert |r| > |p| + k;
    assert r[..|p|] == s[..|p|] == p;
  }

  /** Trimming keeps a prefix that starts and is followed by visible text. */
  lemma {:induction false} TrimKeepsPrefix(p: string, rest: string)
    requires p != "" && !IsSpace(p[0])
    ensures !Blank(rest) ==> HasPrefix(TrimSpace(p + rest), p)
    ensures Blank(rest) ==> TrimSpace(p + rest) == TrimSpace(p)
  {
    hide IsSpace, TrimRight, TrimSpace, HasPrefix, Blank;
    TrimNoLeft(p + rest);
    TrimNoLeft(p);
    if Blank(rest) {
      TrimBlankTail(p, rest);
    } else {
      TrimVisibleTail(p, rest);
    }
  }

  lemma {:induction false} TrimRightUnique(s: string, r: string)
    requires r <= s && (r != [] ==> !IsSpace(r[|r| - 1])) && forall i :: |r| <= i < |s| ==> IsSpace(s[i])
    ensures TrimRight(s) == r
  {
    hide IsSpace, TrimRight;
    assert TrimRight(s) <= s;
  }

  /** The two commands whose arguments end the line need one that is not blank. */
  predicate NamesClient(d: Decision) {
    match d
    case AllowNT(cid, kid) => !(Blank(cid) && Blank(kid))
    case Kill(cid, mode) => !(Blank(cid) && Blank(mode))
    case _ => true
  }

  lemma ArgumentsBlank(d: Decision)
    ensures Blank(Arguments(d)) <==> !NamesClient(d)
  {
    var args := Arguments(d);
    match d
    case Allow(cid, kid) =>
      assert args[|args| - 1] == 'D';
    case AllowNT(cid, kid) =>
      BlankJoin(cid, kid);
    case Deny(cid, kid, reason) =>
      assert args[|args| - 1] == '\"';
    case Pending(cid, kid, url, timeout) =>
      var n := Decimal.PrintInt(timeout);
      assert Decimal.IsDigit(n[|n| - 1]);
      assert args[|args| - 1] == n[|n| - 1];
    case Kill(cid, mode) =>
      if mode != "" {
        BlankJoin(cid, mode);
      }
  }

  lemma BlankJoin(a: string, b: string)
    ensures Blank(a + " " + b) <==> Blank(a) && Blank(b)
  {
    var s := a + " " + b;
    assert forall i :: 0 <= i < |a| ==> s[i] == a[i];
    assert forall i :: 0 <= i < |b| ==> s[|a| + 1 + i] == b[i];
  }

  /** A decision's command is answered by one line exactly when it names its client. */
  lemma DecisionContract(d: Decision)
    ensures ContractOf(ToCommand(d)) == if NamesClient(d) then Some(SingleLineAck) else None
  {
    hide TrimSpace, Arguments, EscapeReason;
    var v, c := Verb(d) + " ", ToCommand(d);
    ArgumentsBlank(d);
    TrimKeepsPrefix(v, Arguments(d));
    if NamesClient(d) {
      assert TrimSpace(c)[..|v|] == v;
      assert TrimSpace(c)[0] == v[0];
    } else {
      assert Blank(" ");
      TrimKeepsPrefix(Verb(d), " ");
      assert TrimSpace(c) == Verb(d);
      assert d.AllowNT? ==> Verb(d)[11] == '-';
    }
  }

  // ----- what OpenVPN reads -----

  lemma SplitWord(word: string, rest: string)
    requires ' ' !in word
    ensures Split(word + " " + rest, ' ') == [word] + Split(rest, ' ')
  {
    SplitHead(word, ' ', rest);
  }

  lemma SplitLastWord(word: string)
    requires ' ' !in word
    ensures Split(word, ' ') == [word]
  {
    IndexUnique(word, ' ', |word|);
  }

  lemma SplitTwoWords(a: string, b: string)
    requires ' ' !in a && ' ' !in b
    ensures Split(a + " " + b, ' ') == [a, b]
  {
    SplitWord(a, b);
    SplitLastWord(b);
  }

  lemma SplitKeyFirst(args: string, cid: string, kid: string, rest: string)
    requires ' ' !in cid && ' ' !in kid && args == cid + " " + (kid + " " + rest)
    ensures var words := Split(args, ' '); |words| >= 3 && words[0] == cid && words[1] == kid
  {
    hide Split;
    SplitWord(cid, kid + " " + rest);
    SplitWord(kid, rest);
  }

  lemma AllowReadsBack(d: Decision)
    requires d.Allow? && ' ' !in d.cid && ' ' !in d.kid
    ensures Split(Arguments(d), ' ') == [d.cid, d.kid + "\nEND"]
  {
    var last := d.kid + "\nEND";
    SplitTwoWords(d.cid, last);
    hide Split;
    assert Arguments(d) == d.cid + " " + last;
  }

  lemma AllowNTReadsBack(d: Decision)
    requires d.AllowNT? && ' ' !in d.cid && ' ' !in d.kid
    ensures Split(Arguments(d), ' ') == [d.cid, d.kid]
  {
    SplitTwoWords(d.cid, d.kid);
  }

  lemma KeyReadsBack(d: Decision)
    requires (d.Deny? || d.Pending?) && ' ' !in d.cid && ' ' !in d.kid
    ensures var words := Split(Arguments(d), ' '); |words| >= 3 && words[0] == d.cid && words[1] == d.kid
  {
    hide Split, EscapeReason, Decimal.PrintInt;
    var rest := Arguments(d)[|d.cid| + |d.kid| + 2..];
    assert Arguments(d) == d.cid + " " + (d.kid + " " + rest);
    SplitKeyFirst(Arguments(d), d.cid, d.kid, rest);
  }

  lemma KillReadsBack(d: Decision)
    requires d.Kill? && ' ' !in d.cid
    ensures var words := Split(Arguments(d), ' ');
            && words[0] == d.cid
            && (' ' !in d.mode ==> words == if d.mode == "" then [d.cid] else [d.cid, d.mode])
  {
    if d.mode == "" {
      SplitLastWord(d.cid);
    } else {
      hide Split;
      SplitWord(d.cid, d.mode);
      if ' ' !in d.mode {
        SplitLastWord(d.mode);
      }
    }
  }

  lemma VerbComesFirst(d: Decision)
    ensures Split(ToCommand(d), ' ') == [Verb(d)] + Split(Arguments(d), ' ')
  {
    assert ' ' !in Verb(d);
    hide Split, Verb, Arguments;
    SplitWord(Verb(d), Arguments(d));
  }

  /** The first words of a command are its verb and its client; where a key ID is sent, it comes next. */
  lemma CommandReadsBack(d: Decision)
    requires ' ' !in d.cid && (!d.Kill? ==> ' ' !in d.kid)
    ensures var words := Split(ToCommand(d), ' ');
            && |words| >= 2 && words[0] == Verb(d) && words[1] == d.cid
            && (d.Allow? ==> words == [Verb(d), d.cid, d.kid + "\nEND"])
            && (d.AllowNT? ==> words == [Verb(d), d.cid, d.kid])
            && (d.Deny? || d.Pending? ==> |words| >= 4 && words[2] == d.kid)
            && (d.Kill? && ' ' !in d.mode ==>
                  words == if d.mode == "" then [Verb(d), d.cid] else [Verb(d), d.cid, d.mode])
  {
    hide Split, Verb, Arguments, ToCommand;
    VerbComesFirst(d);
    match d
    case Allow(_, _) => AllowReadsBack(d);
    case AllowNT(_, _) => AllowNTReadsBack(d);
    case Kill(_, _) => KillReadsBack(d);
    case _ => KeyReadsBack(d);
  }

  /** Two `client-auth` commands are the same only for the same client and key. */
  lemma AllowNamesClient(a: Decision, b: Decision)
    requires a.Allow? && b.Allow? && ToCommand(a) == ToCommand(b)
    requires ' ' !in a.cid && ' ' !in a.kid && ' ' !in b.cid && ' ' !in b.kid
    ensures a == b
  {
    hide ToCommand, Split, Verb;
    CommandReadsBack(a);
    CommandReadsBack(b);
    var w := a.kid + "\nEND";
    assert a.kid == w[..|w| - 4];
    assert b.kid == w[..|w| - 4];
  }

  /** How OpenVPN undoes backslash escapes inside quotes. */
  function Unescape(s: string): string
    decreases |s|
  {
    if s == "" then ""
    else if s[0] == '\\' && |s| > 1 then [s[1]] + Unescape(s[2..])
    else [s[0]] + Unescape(s[1..])
  }

  function SingleQuoted(reason: string): string {
    seq(|reason|, i requires 0 <= i < |reason| => if reason[i] == '\"' then '\'' else reason[i])
  }

  /** A reason cannot end its quotes early, and is read back with double quotes turned into single ones. */
  lemma {:induction false} ReasonReadsBack(reason: string)
    ensures '\"' !in EscapeReason(reason)
    ensures Unescape(EscapeReason(reason)) == SingleQuoted(reason)
    decreases |reason|
  {
    if reason != "" {
      var rest := EscapeReason(reason[1..]);
      ReasonReadsBack(reason[1..]);
      assert SingleQuoted(reason) == [SingleQuoted(reason)[0]] + SingleQuoted(reason[1..]);
      if reason[0] == '\\' {
        assert EscapeReason(reason)[2..] == rest;
      } else {
        assert EscapeReason(reason)[1..] == rest;
      }
    }
  }

  // ----- a command determines its decision -----

  /** The text before the first `c` and the text after it. */
  function Cut(s: string, c: char): (string, string) {
    var i := Index(s, c);
    (s[..i], if i < |s| then s[i + 1..] else "")
  }

  lemma CutJoined(a: string, c: char, b: string)
    requires c !in a
    ensures Cut(a + [c] + b, c) == (a, b)
  {
    var s := a + [c] + b;
    assert s[..|a|] == a && s[|a|] == c && s[|a| + 1..] == b;
    IndexUnique(s, c, |a|);
  }

  lemma CutWhole(a: string, c: char)
    requires c !in a
    ensures Cut(a, c) == (a, "")
  {
    IndexUnique(a, c, |a|);
    assert a[..|a|] == a;
  }

  /** A management command as OpenVPN documents it: verb, client ID, key ID, and what the verb takes. */
  function ReadCommand(text: string): Option<Decision> {
    var (verb, args) := Cut(text, ' ');
    var (cid, rest) := Cut(args, ' ');
    if verb == "client-auth" then ReadAllow(cid, rest)
    else if verb == "client-auth-nt" then Some(AllowNT(cid, rest))
    else if verb == "client-deny" then ReadDeny(cid, rest)
    else if verb == "client-pending-auth" then ReadPending(cid, rest)
    else if verb == "client-kill" then Some(Kill(cid, rest))
    else None
  }

  function ReadAllow(cid: string, rest: string): Option<Decision> {
    if HasSuffix(rest, "\nEND") then Some(Allow(cid, rest[..|rest| - 4])) else None
  }

  function ReadDeny(cid: string, rest: string): Option<Decision> {
    var (kid, quoted) := Cut(rest, ' ');
    if |quoted| >= 2 && quoted[0] == '\"' && quoted[|quoted| - 1] == '\"'
    then Some(Deny(cid, kid, Unescape(quoted[1..|quoted| - 1]))) else None
  }

  function ReadPending(cid: string, rest: string): Option<Decision> {
    var (kid, quoted) := Cut(rest, ' ');
    if !HasPrefix(quoted, "\"WEB_AUTH::") then None
    else
      var (url, timeout) := Cut(quoted[11..], '\"');
      if !HasPrefix(timeout, " ") || Decimal.ParseInt(timeout[1..]).None? then None
      else Some(Pending(cid, kid, url, Decimal.ParseInt(timeout[1..]).value))
  }

  /** Fields that the line format can carry. */
  predicate Sendable(d: Decision) {
    && ' ' !in d.cid
    && (!d.Kill? ==> ' ' !in d.kid)
    && (d.Pending? ==> '\"' !in d.url && -Decimal.INT64_LIMIT <= d.timeout < Decimal.INT64_LIMIT)
  }

  /** What of a decision survives the line format: a reason is never empty and has single quotes only. */
  function AsSent(d: Decision): Decision {
    if d.Deny? then d.(reason := SingleQuoted(if d.reason == "" then "denied" else d.reason)) else d
  }

  lemma VerbRead(d: Decision)
    ensures Cut(ToCommand(d), ' ') == (Verb(d), Arguments(d))
  {
    assert ' ' !in Verb(d);
    hide Verb, Arguments, Cut;
    CutJoined(Verb(d), ' ', Arguments(d));
    assert ToCommand(d) == Verb(d) + [' '] + Arguments(d);
  }

  lemma AllowRead(cid: string, kid: string)
    requires ' ' !in cid
    ensures Cut(Arguments(Allow(cid, kid)), ' ') == (cid, kid + "\nEND")
    ensures ReadAllow(cid, kid + "\nEND") == Some(Allow(cid, kid))
  {
    var rest := kid + "\nEND";
    CutJoined(cid, ' ', rest);
    assert Arguments(Allow(cid, kid)) == cid + [' '] + rest;
    assert rest[|rest| - 4..] == "\nEND" && rest[..|rest| - 4] == kid;
  }

  lemma AllowNTRead(cid: string, kid: string)
    requires ' ' !in cid
    ensures Cut(Arguments(AllowNT(cid, kid)), ' ') == (cid, kid)
  {
    CutJoined(cid, ' ', kid);
  }

  lemma KillRead(cid: string, mode: string)
    requires ' ' !in cid
    ensures Cut(Arguments(Kill(cid, mode)), ' ') == (cid, mode)
  {
    if mode == "" {
      CutWhole(cid, ' ');
    } else {
      CutJoined(cid, ' ', mode);
    }
  }

  /** What follows the key ID of a deny or pending command. */
  function Quoted(d: Decision): string
    requires d.Deny? || d.Pending?
  {
    match d
    case Deny(_, _, reason) => "\"" + EscapeReason(if reason == "" then "denied" else reason) + "\""
    case Pending(_, _, url, timeout) => "\"WEB_AUTH::" + url + "\" " + Decimal.PrintInt(timeout)
  }

  lemma QuotedArguments(d: Decision)
    requires d.Deny? || d.Pending?
    ensures Arguments(d) == d.cid + [' '] + (d.kid + [' '] + Quoted(d))
  {
    hide EscapeReason, Decimal.PrintInt;
    if d.Deny? {
      DenyArguments(d.cid, d.kid, EscapeReason(if d.reason == "" then "denied" else d.reason));
    } else {
      PendingArguments(d.cid, d.kid, d.url, Decimal.PrintInt(d.timeout));
    }
  }

  lemma {:induction false} DenyArguments(cid: string, kid: string, reason: string)
    ensures cid + " " + kid + " \"" + reason + "\"" == cid + [' '] + (kid + [' '] + ("\"" + reason + "\""))
  {
    assert " \"" == " " + "\"";
  }

  lemma {:induction false} PendingArguments(cid: string, kid: string, url: string, n: string)
    ensures cid + " " + kid + " \"WEB_AUTH::" + url + "\" " + n ==
              cid + [' '] + (kid + [' '] + ("\"WEB_AUTH::" + url + "\" " + n))
  {
    assert " \"WEB_AUTH::" == " " + "\"WEB_AUTH::";
  }

  lemma QuotedRead(d: Decision)
    requires (d.Deny? || d.Pending?) && ' ' !in d.cid && ' ' !in d.kid
    ensures Cut(Arguments(d), ' ') == (d.cid, d.kid + [' '] + Quoted(d))
    ensures Cut(d.kid + [' '] + Quoted(d), ' ') == (d.kid, Quoted(d))
  {
    QuotedArguments(d);
    hide Quoted, Arguments, Cut;
    CutJoined(d.kid, ' ', Quoted(d));
    CutJoined(d.cid, ' ', d.kid + [' '] + Quoted(d));
  }

  lemma DenyQuoted(d: Decision)
    requires d.Deny?
    ensures var q := Quoted(d);
            && |q| >= 2 && q[0] == '\"' && q[|q| - 1] == '\"'
            && Unescape(q[1..|q| - 1]) == AsSent(d).reason
  {
    var reason := if d.reason == "" then "denied" else d.reason;
    ReasonReadsBack(reason);
    hide EscapeReason, Unescape, SingleQuoted;
    assert Quoted(d)[1..|Quoted(d)| - 1] == EscapeReason(reason);
  }

  lemma PendingQuoted(d: Decision)
    requires d.Pending? && Sendable(d)
    ensures var q, n := Quoted(d), Decimal.PrintInt(d.timeout);
            && HasPrefix(q, "\"WEB_AUTH::") && Cut(q[11..], '\"') == (d.url, " " + n)
            && HasPrefix(" " + n, " ") && (" " + n)[1..] == n
            && Decimal.ParseInt(n) == Some(d.timeout)
  {
    var q, n := Quoted(d), Decimal.PrintInt(d.timeout);
    Decimal.ParseIntPrint(d.timeout);
    hide Decimal.PrintInt, Decimal.ParseInt, Cut;
    assert q[..11] == "\"WEB_AUTH::";
    assert q[11..] == d.url + ['\"'] + (" " + n);
    CutJoined(d.url, '\"', " " + n);
  }

  lemma DenyRead(d: Decision)
    requires d.Deny? && Sendable(d)
    ensures ReadDeny(d.cid, d.kid + [' '] + Quoted(d)) == Some(AsSent(d))
  {
    QuotedRead(d);
    DenyQuoted(d);
    hide Quoted, Cut, Unescape, SingleQuoted, Arguments;
  }

  lemma PendingRead(d: Decision)
    requires d.Pending? && Sendable(d)
    ensures ReadPending(d.cid, d.kid + [' '] + Quoted(d)) == Some(d)
  {
    QuotedRead(d);
    PendingQuoted(d);
    hide Quoted, Cut, HasPrefix, Decimal.PrintInt, Decimal.ParseInt, Arguments;
  }

  /** Reading a command by its documented form gives back the decision that was sent, whatever it is. */
  lemma ReadUndoesWrite(d: Decision)
    requires Sendable(d)
    ensures ReadCommand(ToCommand(d)) == Some(AsSent(d))
  {
    VerbRead(d);
    assert VerbIs(d, Verb(d));
    hide Cut, Verb, Arguments, ToCommand, ReadAllow, ReadDeny, ReadPending, Quoted;
    match d
    case Allow(cid, kid) => AllowRead(cid, kid);
    case AllowNT(cid, kid) => AllowNTRead(cid, kid);
    case Deny(_, _, _) =>
      QuotedRead(d);
      DenyRead(d);
    case Pending(_, _, _, _) =>
      QuotedRead(d);
      PendingRead(d);
    case Kill(cid, mode) => KillRead(cid, mode);
  }

  predicate VerbIs(d: Decision, verb: string) {
    match d
    case Allow(_, _) => verb == "client-auth"
    case AllowNT(_, _) => verb == "client-auth-nt"
    case Deny(_, _, _) => verb == "client-deny"
    case Pending(_, _, _, _) => verb == "client-pending-auth"
    case Kill(_, _) => verb == "client-kill"
  }

  function FirstWord(text: string): string {
    Cut(text, ' ').0
  }

  /** Only an allow is sent as `client-auth`. */
  lemma ClientAuthMeansAllow(d: Decision)
    ensures FirstWord(ToCommand(d)) == "client-auth" <==> d.Allow?
  {
    VerbRead(d);
    assert VerbIs(d, Verb(d));
    hide Cut, Verb, Arguments, ToCommand;
    assert |"client-auth"| == 11 && |"client-auth-nt"| == 14 && "client-deny"[7] == 'd' && "client-auth"[7] == 'a';
    assert |"client-pending-auth"| == 19 && "client-kill"[7] == 'k';
  }

  lemma VisibleEnds()
    ensures !IsSpace('s') && !IsSpace('3') && !IsSpace('h') && !IsSpace('e')
  {
  }

  lemma {:induction false} NothingToTrim(s: string, first: char, last: char)
    requires s != "" && s[0] == first && s[|s| - 1] == last && !IsSpace(first) && !IsSpace(last)
    ensures TrimSpace(s) == s
  {
    hide IsSpace, TrimSpace, Blank;
    assert Trimmed(s);
  }

  lemma StatusContract()
    ensures ContractOf("status 3") == Some(MultiLineUntilEnd)
  {
    VisibleEnds();
    hide IsSpace, TrimSpace, Blank, HasPrefix;
    NothingToTrim("status 3", 's', '3');
  }

  lemma HoldContract()
    ensures ContractOf("hold release") == Some(SingleLineAck)
  {
    VisibleEnds();
    hide IsSpace, TrimSpace, Blank, HasPrefix;
    NothingToTrim("hold release", 'h', 'e');
    assert |"status 3"| == 8 && |"hold release"| == 12;
  }

  lemma PlainFirstWords()
    ensures FirstWord("status 3") == "status" && FirstWord("hold release") == "hold"
  {
    hide Cut;
    assert "status 3" == "status" + [' '] + "3" && "hold release" == "hold" + [' '] + "release";
    CutJoined("status", ' ', "3");
    CutJoined("hold", ' ', "release");
  }

  /** The two commands that carry no decision, and how they are answered. */
  lemma PlainCommands()
    ensures ContractOf("status 3") == Some(MultiLineUntilEnd) && ContractOf("hold release") == Some(SingleLineAck)
    ensures FirstWord("status 3") == "status" && FirstWord("hold release") == "hold"
  {
    hide ContractOf, FirstWord;
    StatusContract();
    HoldContract();
    PlainFirstWords();
  }
}
