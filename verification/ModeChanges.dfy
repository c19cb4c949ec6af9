/** MODE on a channel (src/channel.c, set_channel_mode): the changes o, v, l and imnpst,
    and collapse_signs, which takes redundant signs out of the line that is sent on. */
module ModeChanges {
  import opened Text
  import opened Channels
  import opened Memberships

  const MAXMODEPARAMS := 4
  const MODEBUFLEN := 200

  datatype Sign = Add | Del | Query

  /** One accepted change. */
  datatype Edit =
    | Status(add: bool, op: bool, who: string)
    | SetLimit(limit: int)
    | NoLimit
    | Switch(add: bool, letter: char)

  /** Who asks: the sender, whether it is a server, a user of this server, and whether the
      line came over a server link. */
  datatype Source = Source(nick: string, server: bool, mine: bool, link: bool)

  /** Variables of set_channel_mode. `beyond` is set at a letter that is not modelled. */
  datatype State = State(chan: Chan, curr: string, args: seq<string>, what: Sign, ops: nat, len: nat,
                     limits: nat, done: set<char>, edits: seq<Edit>, beyond: bool)

  /** isok and isdeop, fixed at the start. */
  datatype Powers = Powers(ok: bool, deop: bool)

  // ----- what a change does and how it is written -----

  function EditOne(c: Chan, x: Edit): Chan {
    match x
    case Status(add, op, who) => c.(members := Flagged(c.members, who, op, add))
    case SetLimit(n) => c.(mode := c.mode.(limit := n, flags := c.mode.flags + {Limit}))
    case NoLimit => c.(mode := c.mode.(limit := 0, flags := c.mode.flags - {Limit}))
    case Switch(add, l) =>
      var f := if FlagOf(l).Some? then {FlagOf(l).value} else {};
      c.(mode := c.mode.(flags := if add then c.mode.flags + f else c.mode.flags - f))
  }

  function SignOf(x: Edit): char {
    match x
    case Status(add, _, _) => if add then '+' else '-'
    case SetLimit(_) => '+'
    case NoLimit => '-'
    case Switch(add, _) => if add then '+' else '-'
  }

  function LetterOf(x: Edit): char {
    match x
    case Status(_, op, _) => if op then 'o' else 'v'
    case SetLimit(_) => 'l'
    case NoLimit => 'l'
    case Switch(_, l) => l
  }

  function ArgsOf(x: Edit): seq<string> {
    match x
    case Status(_, _, who) => [who]
    case SetLimit(n) => [Decimal(n)]
    case NoLimit => []
    case Switch(_, _) => []
  }

  /** modebuf before collapse_signs: every letter with its sign. */
  function Spell(xs: seq<Edit>): string {
    if xs == [] then "" else [SignOf(xs[0]), LetterOf(xs[0])] + Spell(xs[1..])
  }

  function Args(xs: seq<Edit>): seq<string> {
    if xs == [] then [] else ArgsOf(xs[0]) + Args(xs[1..])
  }

  // ----- one letter -----

  predicate IsSpace(c: char) { c == ' ' || '\t' <= c <= '\r' }

  /** check_string: up to the first white space; "*" for nothing. */
  function CheckString(s: string): string { if s == "" then "*" else Unspaced(s) }

  function Unspaced(s: string): string {
    if s == "" || IsSpace(s[0]) then "" else [s[0]] + Unspaced(s[1..])
  }

  /** atoi; values beyond an int wrap around. */
  function IntOf(s: string): (n: int)
    ensures -INT_MAX - 1 <= n <= INT_MAX
  {
    (Atoi(s) + INT_MAX + 1) % 0x1_0000_0000 - INT_MAX - 1
  }

  function LinkOf(ms: seq<Member>, nick: string): Option<Member> {
    if ms == [] then None else if ms[0].nick == nick then Some(ms[0]) else LinkOf(ms[1..], nick)
  }

  function PowersOf(src: Source, c: Chan): Powers {
    var m := LinkOf(c.members, src.nick);
    var chop := src.server || (m.Some? && m.value.op);
    var deop := !chop && m.Some? && m.value.deopped;
    Powers(chop || (!deop && src.link && c.ts != 0), deop)
  }

  // ----- who may change modes -----

  /** The link of `n` is at position `i` of the chain. */
  predicate LinkAt(ms: seq<Member>, n: string, i: int) {
    0 <= i < |ms| && ms[i].nick == n && forall j :: 0 <= j < i ==> ms[j].nick != n
  }

  ghost predicate IsOp(c: Chan, n: string) { exists i :: LinkAt(c.members, n, i) && c.members[i].op }

  ghost predicate IsDeopped(c: Chan, n: string) { exists i :: LinkAt(c.members, n, i) && c.members[i].deopped }

  /** Servers and operators; of the others those behind a link, when the channel has a timestamp and they
      are not marked as deopped. */
  ghost predicate MayChange(src: Source, c: Chan) {
    src.server || IsOp(c, src.nick) || (src.link && c.ts != 0 && !IsDeopped(c, src.nick))
  }

  lemma {:induction false} LinkOfAt(ms: seq<Member>, n: string)
    ensures LinkOf(ms, n).Some? <==> IsMember(ms, n)
    ensures forall i :: LinkAt(ms, n, i) ==> LinkOf(ms, n) == Some(ms[i])
    ensures LinkOf(ms, n).Some? ==> exists i :: LinkAt(ms, n, i)
  {
    if ms != [] {
      var rest := ms[1..];
      LinkOfAt(rest, n);
      if ms[0].nick == n {
        assert LinkAt(ms, n, 0);
        assert forall i :: LinkAt(ms, n, i) ==> i == 0;
      } else {
        forall i | LinkAt(ms, n, i) ensures LinkOf(ms, n) == Some(ms[i]) {
          assert rest[i - 1] == ms[i];
          assert forall j :: 0 <= j < i - 1 ==> rest[j] == ms[j + 1];
          assert LinkAt(rest, n, i - 1);
        }
        if i :| LinkAt(rest, n, i) {
          assert ms[i + 1] == rest[i];
          assert forall j :: 0 < j < i + 1 ==> ms[j] == rest[j - 1];
          assert LinkAt(ms, n, i + 1);
        }
        if i :| 0 <= i < |ms| && ms[i].nick == n { assert rest[i - 1].nick == n; }
        if i :| 0 <= i < |rest| && rest[i].nick == n { assert ms[i + 1].nick == n; }
      }
    }
  }

  lemma MayIs(src: Source, c: Chan)
    ensures PowersOf(src, c).ok <==> MayChange(src, c)
  {
    hide LinkOf, LinkAt, IsMember;
    LinkOfAt(c.members, src.nick);
  }

  function Eat(r: State): State { r.(args := if r.args == [] then [] else r.args[1..]) }

  /** 'o' and 'v'; `find` resolves a nickname. */
  function StatusStep(src: Source, pw: Powers, find: map<string, string>, r: State, op: bool): State {
    if src.mine && !IsMember(r.chan.members, src.nick) then Eat(r)
    else if r.what.Query? || r.args == [] then r
    else StatusArg(src, pw, find, Eat(r), op, r.what.Add?, CheckString(r.args[0]))
  }

  function StatusArg(src: Source, pw: Powers, find: map<string, string>, r: State, op: bool, add: bool,
      arg: string): State {
    if (src.mine && r.ops >= MAXMODEPARAMS) || arg !in find || !IsMember(r.chan.members, find[arg])
      || (find[arg] == src.nick && op && add) || (src.server && add) then r
    else
      var c := if pw.deop && op && add then r.chan.(members := DeopMarked(r.chan.members, find[arg])) else r.chan;
      if !pw.ok || r.len + |arg| + 2 >= MODEBUFLEN then r.(chan := c)
      else
        var x := Status(add, op, find[arg]);
        r.(chan := EditOne(c, x), edits := r.edits + [x], len := r.len + |arg| + 1, ops := r.ops + 1)
  }

  /** 'l'. */
  function LimitStep(pw: Powers, r: State): State {
    if r.what.Query? then r
    else if !pw.ok || r.limits > 0 then
      (if r.what.Add? then Eat(r) else r).(limits := if pw.ok then r.limits + 1 else r.limits)
    else if r.what.Del? then
      r.(limits := 1, chan := EditOne(r.chan, NoLimit), edits := r.edits + [NoLimit])
    else if r.args == [] then r.(limits := 1)
    else
      var n := IntOf(CheckString(r.args[0]));
      if n <= 0 || r.len + |Decimal(n)| + 2 >= MODEBUFLEN then Eat(r).(limits := 1)
      else
        Eat(r).(limits := 1, chan := EditOne(r.chan, SetLimit(n)), edits := r.edits + [SetLimit(n)],
                len := r.len + |Decimal(n)| + 1)
  }

  /** 'i', 'm', 'n', 'p', 's' and 't'. Under '=' all but 'i' act as under '-'. */
  function SwitchStep(src: Source, pw: Powers, r: State, c: char): State {
    if (c == 'i' && r.what.Query?) || !pw.ok || (src.mine && c in r.done) then r
    else
      var d := if src.mine then r.(done := r.done + {c}) else r;
      if r.len + 2 >= MODEBUFLEN then d
      else
        var x := Switch(r.what.Add?, c);
        d.(chan := EditOne(r.chan, x), edits := r.edits + [x], len := r.len + 2)
  }

  function Step(src: Source, pw: Powers, find: map<string, string>, r: State): (q: State)
    requires r.curr != "" || r.args != []
    ensures |q.args| < |r.args| || (|q.args| == |r.args| && |q.curr| < |r.curr|)
  {
    if r.curr == "" then r.(curr := r.args[0], args := r.args[1..])
    else
      var c, q := r.curr[0], r.(curr := r.curr[1..]);
      if c == '+' then q.(what := Add)
      else if c == '-' then q.(what := Del)
      else if c == '=' then q.(what := Query)
      else if c == 'o' || c == 'v' then StatusStep(src, pw, find, q, c == 'o')
      else if c == 'l' then LimitStep(pw, q)
      else if FlagOf(c).Some? then SwitchStep(src, pw, q, c)
      else if c in "kbeIj" then q.(beyond := true, curr := "", args := [])
      else q
  }

  function Steps(src: Source, pw: Powers, find: map<string, string>, r: State): State
    decreases |r.args|, |r.curr|
  {
    if r.curr == "" && r.args == [] then r else Steps(src, pw, find, Step(src, pw, find, r))
  }

  function Start(c: Chan, words: seq<string>): State
    requires words != []
  {
    State(c, words[0], words[1..], Add, 0, 0, 0, {}, [], false)
  }

  /** set_channel_mode as a function: the channel after it and the changes made. */
  function Change(src: Source, find: map<string, string>, c: Chan, words: seq<string>): State
    requires words != []
  {
    Steps(src, PowersOf(src, c), find, Start(c, words))
  }

  // ----- the server -----

  /** The two buffers hold the changes made. */
  predicate Written(xs: seq<Edit>, modebuf: string, parabuf: string) {
    (forall x <- xs :: LetterOf(x) != NUL) && modebuf == Spell(xs) && parabuf == Spaced(Args(xs))
  }

  /** set_channel_mode at work: the channel, its local variables and the two text buffers. */
  class ModeChanger {
    const src: Source
    const find: map<string, string>
    const pw: Powers
    var chan: Chan
    var curr: string
    var args: seq<string>
    var what: Sign
    var plus: char
    var ops: nat
    var len: nat
    var limits: nat
    var done: set<char>
    var beyond: bool
    var modebuf: string
    var parabuf: string
    ghost var edits: seq<Edit>

    ghost function R(): State
      reads this
    {
      State(chan, curr, args, what, ops, len, limits, done, edits, beyond)
    }

    ghost predicate Valid()
      reads this
    {
      Written(edits, modebuf, parabuf) && plus == if what.Add? then '+' else if what.Del? then '-' else '='
    }

    constructor (src: Source, find: map<string, string>, c: Chan, words: seq<string>)
      requires words != []
      ensures Valid() && this.src == src && this.find == find && pw == PowersOf(src, c) && R() == Start(c, words)
    {
      this.src, this.find := src, find;
      pw := PowersOf(src, c);
      chan, curr, args := c, words[0], words[1..];
      what, plus, ops, len, limits, done, beyond := Add, '+', 0, 0, 0, {}, false;
      modebuf, parabuf, edits := "", "", [];
    }

    method EatArg()
      modifies this`args
      ensures R() == Eat(old(R()))
    {
      if args != [] { args := args[1..]; }
    }

    /** Writes a change into the buffers. */
    method Note(sign: char, letter: char, arg: string, ghost x: Edit)
      requires Valid() && sign == SignOf(x) && letter == LetterOf(x) && letter != NUL && Spaced(ArgsOf(x)) == arg
      modifies this`modebuf, this`parabuf, this`edits
      ensures Valid() && edits == old(edits) + [x]
    {
      hide Spaced, Spell, Args;
      SpellAdds(edits, x);
      modebuf := modebuf + [sign, letter];
      parabuf := parabuf + arg;
      edits := edits + [x];
    }

    method Status(op: bool)
      requires Valid()
      modifies this
      ensures Valid() && R() == StatusStep(src, pw, find, old(R()), op)
    {
      hide Written, Spaced, Spell, Args, IsMember, StatusArg, CheckString;
      if src.mine && !IsMember(chan.members, src.nick) { EatArg(); return; }
      if what == Query || args == [] { return; }
      var arg := CheckString(args[0]);
      EatArg();
      GiveStatus(op, arg);
    }

    /** The rest of 'o' and 'v', for a user that exists. */
    method GiveStatus(op: bool, arg: string)
      requires Valid() && !what.Query?
      modifies this
      ensures Valid() && R() == StatusArg(src, pw, find, old(R()), op, old(what.Add?), arg)
    {
      hide Written, Spaced, Spell, Args, IsMember, DeopMarked, EditOne;
      if src.mine && ops >= MAXMODEPARAMS { return; }
      if arg !in find { return; }
      var who := find[arg];
      if !IsMember(chan.members, who) { return; }
      if who == src.nick && op && what == Add { return; }
      if src.server && what == Add { return; }
      if pw.deop && op && what == Add { chan := chan.(members := DeopMarked(chan.members, who)); }
      if !pw.ok || len + |arg| + 2 >= MODEBUFLEN { return; }
      PutStatus(op, who);
      len, ops := len + |arg| + 1, ops + 1;
    }

    /** The change itself. */
    method PutStatus(op: bool, who: string)
      requires Valid() && !what.Query?
      modifies this`chan, this`modebuf, this`parabuf, this`edits
      ensures Valid()
      ensures var x := Edit.Status(what.Add?, op, who);
        R() == old(R()).(chan := EditOne(old(chan), x), edits := old(edits) + [x])
    {
      hide Written, Spaced, Spell, Args, EditOne;
      var x := Edit.Status(what == Add, op, who);
      OneSpaced(who);
      Note(plus, if op then 'o' else 'v', who + " ", x);
      chan := EditOne(chan, x);
    }

    method SetOrClearLimit()
      requires Valid()
      modifies this
      ensures Valid() && R() == LimitStep(pw, old(R()))
    {
      hide Written, Spaced, Spell, Args, Decimal, IntOf, CheckString, EditOne;
      if what == Query { return; }
      if !pw.ok || limits > 0 {
        if pw.ok { limits := limits + 1; }
        if what == Add { EatArg(); }
        return;
      }
      limits := limits + 1;
      if what == Add {
        if args == [] { return; }
        var n := IntOf(CheckString(args[0]));
        args := args[1..];
        if n <= 0 { return; }
        var numeric := Decimal(n);
        if len + |numeric| + 2 >= MODEBUFLEN { return; }
        chan := EditOne(chan, SetLimit(n));
        OneSpaced(numeric);
        Note('+', 'l', numeric + " ", SetLimit(n));
        len := len + |numeric| + 1;
      } else {
        chan := EditOne(chan, NoLimit);
        NoneSpaced();
        Note('-', 'l', "", NoLimit);
      }
    }

    method SwitchFlag(c: char)
      requires Valid() && FlagOf(c).Some?
      modifies this
      ensures Valid() && R() == SwitchStep(src, pw, old(R()), c)
    {
      hide Written, Spaced, Spell, Args, FlagOf, EditOne;
      FlagLetter(c);
      if (c == 'i' && what == Query) || !pw.ok { return; }
      if src.mine {
        if c in done { return; }
        done := done + {c};
      }
      if len + 2 >= MODEBUFLEN { return; }
      NoneSpaced();
      Note(if what == Add then '+' else '-', c, "", Switch(what == Add, c));
      chan := EditOne(chan, Switch(what == Add, c));
      len := len + 2;
    }

    /** The switch over one letter. */
    method OneLetter()
      requires Valid() && curr != ""
      modifies this
      ensures Valid() && R() == Step(src, pw, find, old(R()))
    {
      hide Written, Spaced, Spell, Args, FlagOf, StatusStep, LimitStep, SwitchStep;
      var c := curr[0];
      curr := curr[1..];
      if c == '+' { what, plus := Add, '+'; }
      else if c == '-' { what, plus := Del, '-'; }
      else if c == '=' { what, plus := Query, '='; }
      else if c == 'o' || c == 'v' { Status(c == 'o'); }
      else if c == 'l' { SetOrClearLimit(); }
      else if FlagOf(c).Some? { SwitchFlag(c); }
      else if c in "kbeIj" { beyond, curr, args := true, "", []; }
    }

    method NextWord()
      requires Valid() && curr == "" && args != []
      modifies this
      ensures Valid() && R() == Step(src, pw, find, old(R()))
    {
      hide Written, Spaced, Spell, Args;
      curr, args := args[0], args[1..];
    }

    /** The loop over the letters. */
    method Loop()
      requires Valid()
      modifies this
      ensures Valid() && R() == Steps(src, pw, find, old(R()))
    {
      hide Valid, Step;
      while curr != "" || args != []
        invariant Valid()
        invariant Steps(src, pw, find, R()) == Steps(src, pw, find, old(R()))
        decreases |args|, |curr|
      {
        if curr == "" { NextWord(); } else { OneLetter(); }
      }
    }

    /** set_channel_mode: the mode word and the arguments of the line that is sent on,
        nothing when the word is empty. */
    method Run() returns (line: Option<(string, string)>)
      requires Valid() && edits == []
      modifies this
      ensures Valid() && R() == Steps(src, pw, find, old(R()))
      ensures line == LineOf(edits)
    {
      hide Spaced, Args, Steps, Collapse, CString;
      Loop();
      if modebuf == "" {
        SpellNothing(edits);
        return None;
      }
      var n := |modebuf|;
      var buf := new char[n + 1](i requires 0 <= i <= n reads this => if i < |modebuf| then modebuf[i] else NUL);
      SpellNothing(edits);
      SpellPlain(edits);
      assert buf[..n] == modebuf;
      CollapseSigns(buf, n);
      var word := ReadCString(buf);
      line := Some((word, parabuf));
    }
  }

  lemma FlagLetter(c: char)
    requires FlagOf(c).Some?
    ensures c != NUL
  {
  }

  /** A MODE command on a channel of a server. */
  method SetChannelMode(s: Server, name: string, src: Source, find: map<string, string>, words: seq<string>)
    returns (line: Option<(string, string)>)
    requires name in s.channels && words != [] && !Change(src, find, s.channels[name], words).beyond
    modifies s
    ensures s.channels == old(s.channels)[name := Change(src, find, old(s.channels[name]), words).chan]
    ensures line == LineOf(Change(src, find, old(s.channels[name]), words).edits)
    ensures !MayChange(src, old(s.channels[name])) ==>
      line == None && s.channels[name].mode == old(s.channels[name].mode)
  {
    hide Steps, LineOf, PowersOf, MayChange;
    MayIs(src, s.channels[name]);
    RefusedRun(src, PowersOf(src, s.channels[name]), find, Start(s.channels[name], words));
    NoLine();
    var m := new ModeChanger(src, find, s.channels[name], words);
    line := m.Run();
    s.channels := s.channels[name := m.chan];
  }

  lemma NoLine()
    ensures LineOf([]) == None
  {
  }

  lemma RefusedStep(src: Source, pw: Powers, find: map<string, string>, r: State)
    requires !pw.ok && (r.curr != "" || r.args != [])
    ensures var q := Step(src, pw, find, r); q.edits == r.edits && q.chan.mode == r.chan.mode
  {
    hide IsMember, DeopMarked, EditOne, CheckString, FlagOf;
  }

  /** Without the right to change anything the run makes no change. */
  lemma {:induction false} RefusedRun(src: Source, pw: Powers, find: map<string, string>, r: State)
    ensures var q := Steps(src, pw, find, r); !pw.ok ==> q.edits == r.edits && q.chan.mode == r.chan.mode
    decreases |r.args|, |r.curr|
  {
    hide Step;
    if !pw.ok && (r.curr != "" || r.args != []) {
      RefusedStep(src, pw, find, r);
      RefusedRun(src, pw, find, Step(src, pw, find, r));
    }
  }

  method ReadCString(b: array<char>) returns (s: string)
    ensures s == CString(b[..])
  {
    s := "";
    var i := 0;
    while i < b.Length && b[i] != NUL
      invariant 0 <= i <= b.Length
      invariant CString(b[..]) == s + CString(b[..][i..])
    {
      assert b[..][i..][1..] == b[..][i + 1..];
      Joined3(s, [b[i]], CString(b[..][i + 1..]));
      s := s + [b[i]];
      i := i + 1;
    }
    assert s + "" == s;
  }

  /** The line that is sent on after the changes `xs`. */
  function LineOf(xs: seq<Edit>): Option<(string, string)> {
    if xs == [] then None else Some((Collapse(Spell(xs)), Spaced(Args(xs))))
  }

  lemma SpellNothing(xs: seq<Edit>)
    ensures Spell(xs) == "" <==> xs == []
  {
  }

  lemma {:induction false} SpellPlain(xs: seq<Edit>)
    requires forall x <- xs :: LetterOf(x) != NUL
    ensures NUL !in Spell(xs)
  {
    if xs != [] { SpellPlain(xs[1..]); }
  }

  lemma SpellAdds(xs: seq<Edit>, x: Edit)
    ensures Spell(xs + [x]) == Spell(xs) + [SignOf(x), LetterOf(x)]
    ensures Spaced(Args(xs + [x])) == Spaced(Args(xs)) + Spaced(ArgsOf(x))
  {
    hide Spaced, Args, Spell;
    LettersAdd(xs, x);
    ArgsAdd(xs, x);
    SpacedConcat(Args(xs), ArgsOf(x));
  }

  lemma {:induction false} LettersAdd(xs: seq<Edit>, x: Edit)
    ensures Spell(xs + [x]) == Spell(xs) + [SignOf(x), LetterOf(x)]
  {
    if xs == [] {
      assert Spell([x]) == [SignOf(x), LetterOf(x)] + "";
    } else {
      assert (xs + [x])[1..] == xs[1..] + [x];
      LettersAdd(xs[1..], x);
      Joined3([SignOf(xs[0]), LetterOf(xs[0])], Spell(xs[1..]), [SignOf(x), LetterOf(x)]);
    }
  }

  lemma {:induction false} ArgsAdd(xs: seq<Edit>, x: Edit)
    ensures Args(xs + [x]) == Args(xs) + ArgsOf(x)
  {
    hide ArgsOf;
    if xs == [] {
      assert Args([x]) == ArgsOf(x) + [];
    } else {
      assert (xs + [x])[1..] == xs[1..] + [x];
      ArgsAdd(xs[1..], x);
    }
  }

  lemma OneSpaced(w: string)
    ensures Spaced([w]) == w + " "
  {
    assert Spaced([]) == "";
  }

  lemma NoneSpaced()
    ensures Spaced([]) == ""
  {
  }

  // ----- collapse_signs -----

  const NUL := '\0'

  function CollapseFrom(plus: char, s: string): (r: string)
    ensures |r| <= |s|
    decreases |s|
  {
    if s == "" then ""
    else
      (if s[0] != plus then [s[0]] else "") + CollapseFrom(if s[0] == '+' || s[0] == '-' then s[0] else plus, s[1..])
  }

  function Collapse(s: string): string { CollapseFrom(NUL, s) }

  /** What a mode string says: each letter with the sign in force. */
  function Meaning(sign: char, s: string): seq<(char, char)>
    decreases |s|
  {
    if s == "" then []
    else if s[0] == '+' || s[0] == '-' then Meaning(s[0], s[1..])
    else [(sign, s[0])] + Meaning(sign, s[1..])
  }

  predicate IsSign(c: char) { c == '+' || c == '-' }

  lemma {:induction false} CollapseFromMeans(plus: char, s: string)
    requires NUL !in s && (plus == NUL || IsSign(plus))
    ensures Meaning(plus, CollapseFrom(plus, s)) == Meaning(plus, s)
    decreases |s|
  {
    if s != "" {
      var p := if IsSign(s[0]) then s[0] else plus;
      CollapseFromMeans(p, s[1..]);
      var t := CollapseFrom(p, s[1..]);
      assert ([s[0]] + t)[1..] == t;
      assert "" + t == t;
    }
  }

  /** collapse_signs changes the meaning of no mode string. */
  lemma CollapseMeans(s: string)
    requires NUL !in s
    ensures Meaning(NUL, Collapse(s)) == Meaning(NUL, s)
  {
    CollapseFromMeans(NUL, s);
  }

  /** The signs of `s`, in order. */
  function Signs(s: string): string {
    if s == "" then "" else (if IsSign(s[0]) then [s[0]] else "") + Signs(s[1..])
  }

  predicate Alternates(g: string) { forall i, j :: 0 <= i < |g| && 0 <= j < |g| && j == i + 1 ==> g[i] != g[j] }

  lemma {:induction false} CollapseAlternates(plus: char, s: string)
    requires NUL !in s && (plus == NUL || IsSign(plus))
    ensures Alternates([plus] + Signs(CollapseFrom(plus, s)))
    decreases |s|
  {
    hide Alternates;
    if s == "" {
      OneAlternates(plus);
      assert [plus] + "" == [plus];
    } else {
      var p := if IsSign(s[0]) then s[0] else plus;
      CollapseAlternates(p, s[1..]);
      var t := CollapseFrom(p, s[1..]);
      assert ([s[0]] + t)[1..] == t;
      assert "" + t == t && "" + Signs(t) == Signs(t);
      var h := [p] + Signs(t);
      assert CollapseFrom(plus, s) == if s[0] == plus then t else [s[0]] + t;
      if p == plus {
        assert [plus] + Signs(CollapseFrom(plus, s)) == h;
      } else {
        assert Signs([s[0]] + t) == h;
        AlternatesCons(plus, h);
      }
    }
  }

  lemma OneAlternates(plus: char)
    ensures Alternates([plus])
  {
  }

  lemma AlternatesCons(plus: char, h: string)
    requires Alternates(h) && h != "" && h[0] != plus
    ensures Alternates([plus] + h)
  {
    var g := [plus] + h;
    assert forall i :: 0 < i < |g| ==> g[i] == h[i - 1];
  }

  /** Nothing redundant is left: no sign repeats the one before it. */
  lemma CollapseMinimal(s: string)
    requires NUL !in s
    ensures Alternates(Signs(Collapse(s)))
  {
    CollapseAlternates(NUL, s);
    var g, h := Signs(Collapse(s)), [NUL] + Signs(Collapse(s));
    assert forall i :: 0 <= i < |g| ==> g[i] == h[i + 1];
  }

  /** The C string in a buffer. */
  function CString(s: seq<char>): string {
    if s == [] || s[0] == NUL then "" else [s[0]] + CString(s[1..])
  }

  lemma {:induction false} CStringIs(s: seq<char>, n: nat)
    requires n < |s| && s[n] == NUL && NUL !in s[..n]
    ensures CString(s) == s[..n]
  {
    if n > 0 {
      assert s[..n] == [s[0]] + s[1..][..n - 1];
      CStringIs(s[1..], n - 1);
    }
  }

  lemma CollapseStep(plus: char, s: string)
    requires s != ""
    ensures CollapseFrom(plus, s)
         == (if s[0] != plus then [s[0]] else "") + CollapseFrom(if IsSign(s[0]) then s[0] else plus, s[1..])
  {
  }

  lemma CollapseNothing()
    ensures forall plus :: CollapseFrom(plus, "") == ""
  {
  }

  lemma Joined3(a: string, b: string, c: string)
    ensures a + (b + c) == (a + b) + c
  {
  }

  /** collapse_signs: in place, the writing index never ahead of the reading one. */
  method CollapseSigns(s: array<char>, ghost n: nat)
    requires n < s.Length && s[n] == NUL && NUL !in s[..n]
    modifies s
    ensures CString(s[..]) == Collapse(old(s[..n]))
  {
    hide CString, CollapseFrom;
    ghost var was := s[..n];
    CollapseNothing();
    var plus, t, i := NUL, 0, 0;
    assert was[0..] == was;
    while s[i] != NUL
      invariant 0 <= t <= i <= n
      invariant s[i..n] == was[i..] && s[n] == NUL
      invariant s[..t] + CollapseFrom(plus, was[i..]) == Collapse(was)
      invariant NUL !in s[..t]
      decreases n - i
    {
      var c := s[i];
      assert c == was[i..][0] && was[i..][1..] == was[i + 1..];
      CollapseStep(plus, was[i..]);
      ghost var done := s[..t];
      ghost var left := s[i + 1..n];
      assert left == s[i..n][1..];
      Joined3(done, if c != plus then [c] else "", CollapseFrom(if IsSign(c) then c else plus, was[i + 1..]));
      if c != plus {
        s[t] := c;
        t := t + 1;
        assert s[..t] == done + [c];
      } else {
        assert s[..t] == done + "";
      }
      assert s[i + 1..n] == left;
      if c == '+' || c == '-' { plus := c; }
      i := i + 1;
    }
    assert was[i..] == "" && s[..t] + "" == s[..t];
    s[t] := NUL;
    CStringIs(s[..], t);
    assert s[..][..t] == s[..t];
  }
}
