/** A server's channels and the SJOIN command (src/channel.c): send_channel_modes
    prints a channel as SJOIN lines, m_sjoin merges such a line into local state by
    comparing timestamps and rewrites it for the other links. Messages are the
    parameter vectors that the line parser hands to a command: sender, timestamp,
    channel, modes, mode arguments, list of names. */
module Channels {
  import opened Text

  const KEYLEN := 23
  const BUFSIZE := 512
  const NICKLEN := 9
  const HOSTLEN := 63
  const CHANNELLEN := 200
  const INT_MAX := 0x7fff_ffff

  /** The characters of a line that sendto_one and its like send, without the line end. */
  const WIRE := 510
  const ULONG_RANGE := 0x1_0000_0000_0000_0000

  datatype Flag = Private | Secret | Moderated | TopicLimit | InviteOnly | NoPrivMsgs | Limit

  /** mode.mode, mode.limit and mode.key. */
  datatype Mode = Mode(flags: set<Flag>, limit: int, key: string)

  const NO_MODE := Mode({}, 0, "")

  /** One link of the member chain with its CHANOP, VOICE and DEOPPED bits. */
  datatype Member = Member(nick: string, op: bool, voice: bool, deopped: bool)

  datatype Chan = Chan(ts: int, mode: Mode, members: seq<Member>, juped: bool)

  predicate IsMember(ms: seq<Member>, nick: string) {
    exists i :: 0 <= i < |ms| && ms[i].nick == nick
  }

  // ----- mode letters -----

  function FlagOf(c: char): Option<Flag> {
    match c
    case 'i' => Some(InviteOnly)
    case 'n' => Some(NoPrivMsgs)
    case 'p' => Some(Private)
    case 's' => Some(Secret)
    case 'm' => Some(Moderated)
    case 't' => Some(TopicLimit)
    case _ => None
  }

  /** strncpy_irc(mode.key, arg, KEYLEN) into a zeroed buffer. */
  function CutKey(s: string): string { if |s| <= KEYLEN then s else s[..KEYLEN] }

  /** The mode word of an SJOIN: the modes it names and the number of arguments it
      takes; None when an argument would leave no room for the list of names. */
  function ParseModes(s: string, parv: seq<string>, args: nat, m: Mode): (r: Option<(Mode, nat)>)
    requires 5 + args <= |parv|
    ensures r.Some? ==> args <= r.value.1 && 5 + r.value.1 <= |parv|
  {
    if s == "" then Some((m, args))
    else if s[0] == 'k' then
      if |parv| < 6 + args then None
      else ParseModes(s[1..], parv, args + 1, m.(key := CutKey(parv[4 + args])))
    else if s[0] == 'l' then
      if |parv| < 6 + args then None
      else ParseModes(s[1..], parv, args + 1, m.(limit := Atoi(parv[4 + args])))
    else match FlagOf(s[0])
      case Some(f) => ParseModes(s[1..], parv, args, m.(flags := m.flags + {f}))
      case None => ParseModes(s[1..], parv, args, m)
  }

  function Letter(m: Mode, f: Flag, c: char): string { if f in m.flags then [c] else "" }

  /** The letters of the modes that take an argument. */
  function ArgLetters(m: Mode): string {
    (if m.limit != 0 then "l" else "") + (if m.key != "" then "k" else "")
  }

  /** channel_modes towards a server: the mode word. */
  function ModeWord(m: Mode): string {
    "+" + (Letter(m, Secret, 's') + (Letter(m, Private, 'p') + (Letter(m, Moderated, 'm')
    + (Letter(m, TopicLimit, 't') + (Letter(m, InviteOnly, 'i') + (Letter(m, NoPrivMsgs, 'n') + ArgLetters(m)))))))
  }

  /** channel_modes towards a server: the argument buffer. */
  function ModeArgs(m: Mode): string {
    (if m.limit != 0 then Decimal(m.limit) + " " else "") + m.key
  }

  // ----- name tokens -----

  predicate MarksOp(tok: string) { |tok| > 0 && (tok[0] == '@' || (|tok| > 1 && tok[1] == '@')) }

  predicate MarksVoice(tok: string) { |tok| > 0 && (tok[0] == '+' || (|tok| > 1 && tok[1] == '+')) }

  /** A token without its leading '@' and '+' marks. */
  function Bare(tok: string): string {
    if tok != "" && (tok[0] == '@' || tok[0] == '+') then Bare(tok[1..]) else tok
  }

  /** A member as send_channel_modes writes it. */
  function Marked(m: Member): string {
    (if m.op then "@" else "") + (if m.voice then "+" else "") + m.nick
  }

  // ----- m_sjoin -----

  datatype Decision = Decision(ts: int, keepOurs: bool, keepNew: bool)

  /** The timestamp comparison: the channel's new timestamp, which is also the one
      sent on, and whose modes survive. */
  function Decide(was: Option<Chan>, newts: int): Decision {
    match was
    case None => Decision(newts, true, true)
    case Some(c) =>
      if newts == 0 || c.ts == 0 then Decision(0, true, true)
      else if newts == c.ts then Decision(c.ts, true, true)
      else if newts < c.ts then Decision(newts, false, true)
      else if c.juped && c.members == [] then Decision(newts, true, true)
      else Decision(c.ts, true, false)
  }

  function MergeMode(d: Decision, theirs: Mode, ours: Mode): Mode {
    if !d.keepNew then ours
    else if d.keepOurs then
      Mode(theirs.flags + ours.flags,
           if ours.limit > theirs.limit then ours.limit else theirs.limit,
           if StrLess(theirs.key, ours.key) then ours.key else theirs.key)
    else theirs
  }

  /** All members without op and voice. */
  function Stripped(ms: seq<Member>): (r: seq<Member>)
    ensures |r| == |ms|
    ensures forall i :: 0 <= i < |ms| ==> r[i] == ms[i].(op := false, voice := false)
  {
    seq(|ms|, i requires 0 <= i < |ms| => ms[i].(op := false, voice := false))
  }

  /** The member chain and the tokens sent on, while the name list is processed. */
  datatype Joined = Joined(members: seq<Member>, out: seq<string>)

  /** One name of the list. `who` resolves a nickname to the user behind the sending
      link (find_chasing and acptr->from == cptr). */
  function JoinOne(j: Joined, tok: string, who: map<string, string>, keepNew: bool): Joined {
    var s := Bare(tok);
    if s !in who then j
    else
      var m := Member(who[s], keepNew && MarksOp(tok), keepNew && MarksVoice(tok),
                      !keepNew && MarksOp(tok));
      Joined(if IsMember(j.members, who[s]) then j.members else [m] + j.members,
             j.out + [if keepNew then tok else s])
  }

  function JoinAll(ms: seq<Member>, toks: seq<string>, who: map<string, string>, keepNew: bool): Joined {
    if toks == [] then Joined(ms, [])
    else JoinOne(JoinAll(ms, toks[..|toks| - 1], who, keepNew), toks[|toks| - 1], who, keepNew)
  }

  /** The channel after an SJOIN, the line sent on as the next server reads it, and the length of the
      text that m_sjoin writes for it. */
  datatype Outcome = Outcome(chan: Chan, fwd: Option<seq<string>>, size: nat)

  const FRESH := Chan(0, NO_MODE, [], false)

  function OldChan(was: Option<Chan>): Chan { if was.Some? then was.value else FRESH }

  /** A line ":sender SJOIN timestamp channel modes arguments :names" after its command. */
  function LineRest(ts: int, name: string, word: string, args: string, names: string): string {
    TimeText(ts % ULONG_RANGE) + " " + (name + " " + (word + " " + (args + (":" + names))))
  }

  /** The line as its receiver sees it. */
  function LineParv(sender: string, ts: int, name: string, word: string, args: string, names: string): seq<string> {
    [sender] + Params(LineRest(ts, name, word, args, names))
  }

  /** Length of the text ":sender SJOIN " with `rest` behind it. */
  function LineSize(sender: string, rest: string): nat { 1 + |sender| + 7 + |rest| }

  /** The line as its receiver sees it when it has gone over a link, which cuts it off after 510
      characters. */
  function WireParv(sender: string, rest: string): seq<string> {
    [sender] + Params(if LineSize(sender, rest) <= WIRE then rest
                      else if LineSize(sender, "") <= WIRE then rest[..WIRE - LineSize(sender, "")]
                      else "")
  }

  /** Whether m_sjoin sends the merged modes on, rather than "0". */
  predicate SendsModes(parv: seq<string>, d: Decision)
    requires |parv| >= 5
  {
    !(parv[3] != "" && parv[3][0] == '0') && d.keepNew
  }

  /** The line that m_sjoin writes into sjbuf, after its command. */
  function ForwardRest(parv: seq<string>, d: Decision, m: Mode, out: seq<string>): string
    requires |parv| >= 5
  {
    var full := SendsModes(parv, d);
    LineRest(d.ts, parv[2], if full then ModeWord(m) else "0",
             (if full then ModeArgs(m) else "") + " ", ChopBlank(Spaced(out)))
  }

  predicate ChanChar(c: char) { c != '\0' && c as int != 7 && c != ' ' && c != ',' }

  /** The checks before anything is changed. */
  predicate Accepts(fromServer: bool, parv: seq<string>) {
    && fromServer && |parv| >= 5
    && parv[2] != "" && parv[2][0] == '#'
    && (forall i :: 0 <= i < |parv[2]| ==> ChanChar(parv[2][i]))
    && ParseModes(parv[3], parv, 0, NO_MODE).Some?
  }

  /** What an accepted SJOIN does to the channel and what is sent on. */
  function SJoin(was: Option<Chan>, parv: seq<string>, who: map<string, string>): Outcome
    requires |parv| >= 5 && ParseModes(parv[3], parv, 0, NO_MODE).Some?
  {
    var (theirs, args) := ParseModes(parv[3], parv, 0, NO_MODE).value;
    var c := OldChan(was);
    var d := Decide(was, Atoi(parv[1]));
    var mode := MergeMode(d, theirs, c.mode);
    var j := JoinAll(if d.keepOurs then c.members else Stripped(c.members),
                     Tokens(parv[4 + args]), who, d.keepNew);
    var rest := ForwardRest(parv, d, mode, j.out);
    Outcome(Chan(d.ts, mode, j.members, c.juped),
            if j.out == [] then None else Some(WireParv(parv[0], rest)), LineSize(parv[0], rest))
  }

  // ----- send_channel_modes -----

  /** Index of the first operator, or the length. */
  function FirstOp(ms: seq<Member>): (k: nat)
    ensures k <= |ms|
    ensures k < |ms| ==> ms[k].op
    ensures forall i :: 0 <= i < k ==> !ms[i].op
  {
    if ms == [] || ms[0].op then 0 else 1 + FirstOp(ms[1..])
  }

  /** The members in the order they are printed: one operator first. */
  function BurstOrder(ms: seq<Member>): seq<Member> {
    var k := FirstOp(ms);
    if k < |ms| then [ms[k]] + ms[..k] + ms[k + 1..] else ms
  }

  function MarkAll(ms: seq<Member>): (r: seq<string>)
    ensures |r| == |ms|
    ensures forall i :: 0 <= i < |ms| ==> r[i] == Marked(ms[i])
  {
    seq(|ms|, i requires 0 <= i < |ms| => Marked(ms[i]))
  }

  /** The tokens packed into lines: a line is sent once the buffer, which starts at
      `used` bytes (`base` after the first line), has passed BUFSIZE - 80. */
  function Pack(cur: seq<string>, used: nat, toks: seq<string>, base: nat): seq<seq<string>>
    decreases |toks|
  {
    if toks == [] then (if cur == [] then [] else [cur])
    else
      var u := used + |toks[0]| + 1;
      if u > BUFSIZE - 80 then [cur + [toks[0]]] + Pack([], base, toks[1..], base)
      else Pack(cur + [toks[0]], u, toks[1..], base)
  }

  function Header(me: string, c: Chan, name: string): string {
    ":" + me + " SJOIN " + TimeText(c.ts % ULONG_RANGE) + " " + name + " "
  }

  /** Size of the first line before any name: the argument buffer gets a blank more
      when it is not empty, and the list starts with a colon. */
  function FirstBase(me: string, c: Chan, name: string): nat {
    var a := ModeArgs(c.mode);
    |Header(me, c, name)| + |ModeWord(c.mode)| + 1 + |a| + (if a != "" then 1 else 0) + 1
  }

  function NextBase(me: string, c: Chan, name: string): nat { |Header(me, c, name)| + 3 }

  function BurstLine(me: string, c: Chan, name: string, first: bool, toks: seq<string>): seq<string> {
    var a := if first then ModeArgs(c.mode) else "";
    WireParv(me, LineRest(c.ts, name, if first then ModeWord(c.mode) else "0",
                          if a != "" then a + " " else "", Spaced(toks)))
  }

  /** Lines first..n of the packed tokens, as parameter vectors. */
  function BurstLines(me: string, c: Chan, name: string, first: bool, packs: seq<seq<string>>): (r: seq<seq<string>>)
    ensures |r| == |packs|
  {
    if packs == [] then []
    else [BurstLine(me, c, name, first, packs[0])] + BurstLines(me, c, name, false, packs[1..])
  }

  /** The whole burst for one channel; only '#' channels are sent. */
  function Burst(me: string, c: Chan, name: string): seq<seq<string>> {
    if name == "" || name[0] != '#' then []
    else BurstLines(me, c, name, true,
                    Pack([], FirstBase(me, c, name), MarkAll(BurstOrder(c.members)), NextBase(me, c, name)))
  }

  // ----- the server as it runs -----

  class Server {
    const me: string
    var channels: map<string, Chan>

    constructor (name: string)
      ensures me == name && channels == map[]
    {
      me := name;
      channels := map[];
    }

    function Lookup(name: string): (r: Option<Chan>)
      reads this
      ensures r.Some? <==> name in channels
      ensures r.Some? ==> r.value == channels[name]
    {
      if name in channels then Some(channels[name]) else None
    }

    /** The loop of m_sjoin over the mode word. */
    static method ReadModes(parv: seq<string>) returns (r: Option<(Mode, nat)>)
      requires |parv| >= 5
      ensures r == ParseModes(parv[3], parv, 0, NO_MODE)
    {
      var s, args, mode := parv[3], 0, NO_MODE;
      while s != ""
        invariant 5 + args <= |parv|
        invariant ParseModes(parv[3], parv, 0, NO_MODE) == ParseModes(s, parv, args, mode)
        decreases |s|
      {
        if s[0] == 'k' {
          mode := mode.(key := CutKey(parv[4 + args]));
          args := args + 1;
          if |parv| < 5 + args { return None; }
        } else if s[0] == 'l' {
          mode := mode.(limit := Atoi(parv[4 + args]));
          args := args + 1;
          if |parv| < 5 + args { return None; }
        } else if FlagOf(s[0]).Some? {
          mode := mode.(flags := mode.flags + {FlagOf(s[0]).value});
        }
        s := s[1..];
      }
      return Some((mode, args));
    }

    /** The loop of m_sjoin that takes op and voice from everyone. */
    static method StripMembers(chain: seq<Member>) returns (members: seq<Member>)
      ensures members == Stripped(chain)
    {
      members := chain;
      var k := 0;
      while k < |members|
        invariant 0 <= k <= |members| == |chain|
        invariant members[..k] == Stripped(chain)[..k]
        invariant members[k..] == chain[k..]
      {
        ghost var was := members;
        members := members[k := members[k].(op := false, voice := false)];
        assert members[..k + 1] == was[..k] + [members[k]];
        assert members[k + 1..] == was[k..][1..] && chain[k + 1..] == chain[k..][1..];
        assert Stripped(chain)[..k + 1] == Stripped(chain)[..k] + [Stripped(chain)[k]];
        assert was[k] == was[k..][0] == chain[k..][0];
        k := k + 1;
      }
    }

    /** The loop of m_sjoin over the list of names. */
    static method JoinNames(chain: seq<Member>, names: string, who: map<string, string>, keepNew: bool)
      returns (members: seq<Member>, out: seq<string>)
      ensures Joined(members, out) == JoinAll(chain, Tokens(names), who, keepNew)
    {
      hide Bare, MarksOp, MarksVoice, IsMember;
      members, out := chain, [];
      var toks := Tokens(names);
      var n := 0;
      while n < |toks|
        invariant 0 <= n <= |toks|
        invariant Joined(members, out) == JoinAll(chain, toks[..n], who, keepNew)
      {
        var tok := toks[n];
        var op, voice, deopped := MarksOp(tok), MarksVoice(tok), false;
        if !keepNew { op, voice, deopped := false, false, op; }
        var nick := Bare(tok);
        assert toks[..n + 1][..n] == toks[..n];
        n := n + 1;
        if nick in who {
          if !IsMember(members, who[nick]) {
            members := [Member(who[nick], op, voice, deopped)] + members;
          }
          out := out + [if keepNew then tok else nick];
        }
      }
      assert toks[..n] == toks;
    }

    /** check_channel_name. */
    static method CheckChannelName(name: string) returns (ok: bool)
      ensures ok <==> forall i :: 0 <= i < |name| ==> ChanChar(name[i])
    {
      var i := 0;
      while i < |name|
        invariant 0 <= i <= |name|
        invariant forall k :: 0 <= k < i ==> ChanChar(name[k])
      {
        if !ChanChar(name[i]) { return false; }
        i := i + 1;
      }
      return true;
    }

    /** The timestamp cases of m_sjoin. */
    static method CompareTs(isnew: bool, chan: Chan, newts: int) returns (d: Decision)
      ensures d == Decide(if isnew then None else Some(chan), newts)
    {
      var keepOurs, keepNew, ts := true, true, chan.ts;
      if isnew {
        ts := newts;
      } else if newts == 0 || chan.ts == 0 {
        ts := 0;
      } else if newts == chan.ts {
      } else if newts < chan.ts {
        keepOurs := false;
        ts := newts;
      } else if chan.juped && |chan.members| == 0 {
        ts := newts;
      } else {
        keepNew := false;
      }
      return Decision(ts, keepOurs, keepNew);
    }

    /** The mode merge of m_sjoin. */
    static method Merge(d: Decision, theirs: Mode, ours: Mode) returns (mode: Mode)
      ensures mode == MergeMode(d, theirs, ours)
    {
      mode := theirs;
      if !d.keepNew {
        mode := ours;
      } else if d.keepOurs {
        mode := mode.(flags := mode.flags + ours.flags);
        if ours.limit > mode.limit { mode := mode.(limit := ours.limit); }
        if StrLess(mode.key, ours.key) { mode := mode.(key := ours.key); }
      }
    }

    /** m_sjoin. `inside` says whether the text of the line sent on stayed in sjbuf with its NUL; if not,
        what is behind sjbuf was written over, and nothing is promised of later lines. */
    method MSjoin(fromServer: bool, parv: seq<string>, who: map<string, string>)
      returns (fwd: Option<seq<string>>, inside: bool)
      modifies this
      ensures !Accepts(fromServer, parv) ==> channels == old(channels) && fwd == None && inside
      ensures Accepts(fromServer, parv) ==>
        var r := SJoin(old(Lookup(parv[2])), parv, who);
        channels == old(channels)[parv[2] := r.chan] && fwd == r.fwd && (inside <==> r.size + 1 <= BUFSIZE)
    {
      hide ParseModes, JoinAll, LineRest, WireParv, LineSize, MergeMode, Decide, Tokens, Spaced, ModeWord, ModeArgs,
          Stripped, Atoi;
      fwd, inside := None, true;
      if !fromServer || |parv| < 5 || parv[2] == "" || parv[2][0] != '#' { return; }
      var ok := CheckChannelName(parv[2]);
      if !ok { return; }
      var parsed := ReadModes(parv);
      if parsed.None? { return; }
      var (mode, args) := parsed.value;

      var isnew := parv[2] !in channels;
      var chan := if isnew then FRESH else channels[parv[2]];
      var d := CompareTs(isnew, chan, Atoi(parv[1]));
      mode := Merge(d, mode, chan.mode);
      var members := chan.members;
      if !d.keepOurs { members := StripMembers(members); }

      var modebuf, parabuf := "0", "";
      if !(parv[3] != "" && parv[3][0] == '0') && d.keepNew {
        modebuf, parabuf := ModeWord(mode), ModeArgs(mode);
      }

      var out;
      members, out := JoinNames(members, parv[4 + args], who, d.keepNew);
      channels := channels[parv[2] := Chan(d.ts, mode, members, chan.juped)];
      var rest := LineRest(d.ts, parv[2], modebuf, parabuf + " ", ChopBlank(Spaced(out)));
      inside := LineSize(parv[0], rest) + 1 <= BUFSIZE;
      if |out| > 0 { fwd := Some(WireParv(parv[0], rest)); }
    }

    /** send_channel_modes, without the ban lists: the lines sent for one channel. */
    method SendChannelModes(name: string) returns (lines: seq<seq<string>>)
      requires name in channels
      ensures lines == Burst(me, channels[name], name)
    {
      hide BurstLine, Pack, BurstLines, Header;
      lines := [];
      if name == "" || name[0] != '#' { return; }
      var c := channels[name];
      var ms := c.members;
      var anop := FindOp(ms);
      var skip := anop;             // |ms| stands for NULL, here and below
      ghost var toks := MarkAll(BurstOrder(ms));
      var first, used: nat := true, FirstBase(me, c, name);
      ghost var whole := Burst(me, c, name);
      assert toks[0..] == toks;
      var l := |ms|;
      var cur: seq<string> := [];
      ghost var n := 0;             // names printed so far
      while true
        invariant n <= |ms|
        invariant skip == FirstOp(ms) && anop == if n == 0 then skip else |ms|
        invariant l == if n == 0 then |ms| else PrintIndex(ms, n - 1)
        invariant whole == lines + BurstRest(me, c, name, first, cur, used, toks[n..])
        decreases |ms| - n
      {
        l := NextLink(ms, l, anop, skip, n);
        anop := |ms|;
        if l == |ms| { break; }
        PrintIndexAt(ms, n);
        BurstStep(me, c, name, first, cur, used, toks[n..]);
        assert toks[n..][1..] == toks[n + 1..];
        n := n + 1;
        var t := Marked(ms[l]);
        cur := cur + [t];
        used := used + |t| + 1;
        if used > BUFSIZE - 80 {
          lines := lines + [BurstLine(me, c, name, first, cur)];
          cur, used, first := [], NextBase(me, c, name), false;
        }
      }
      assert toks[n..] == [];
      BurstEnd(me, c, name, first, cur, used);
      if |cur| > 0 {
        lines := lines + [BurstLine(me, c, name, first, cur)];
      }
    }

    /** One step of send_channel_modes along the chain: the operator found first, then
        the chain from its head without that operator. */
    static method NextLink(ms: seq<Member>, l: nat, anop: nat, skip: nat, ghost n: nat) returns (next: nat)
      requires n <= |ms|
      requires skip == FirstOp(ms) && anop == if n == 0 then skip else |ms|
      requires l == if n == 0 then |ms| else PrintIndex(ms, n - 1)
      ensures next == if n < |ms| then PrintIndex(ms, n) else |ms|
    {
      if anop < |ms| { return anop; }
      if l == |ms| || l == skip { next := 0; } else { next := l + 1; }
      if next < |ms| && next == skip { next := next + 1; }
    }

    /** The loop of send_channel_modes that looks for an operator. */
    static method FindOp(ms: seq<Member>) returns (anop: nat)
      ensures anop == FirstOp(ms)
    {
      anop := 0;
      while anop < |ms| && !ms[anop].op
        invariant 0 <= anop <= |ms|
        invariant forall i :: 0 <= i < anop ==> !ms[i].op
      {
        anop := anop + 1;
      }
    }
  }

  // ----- proof helpers for send_channel_modes -----

  /** The position in the chain of the n-th name printed. */
  function PrintIndex(ms: seq<Member>, n: nat): nat {
    var k := FirstOp(ms);
    if k == |ms| then n else if n == 0 then k else if n - 1 < k then n - 1 else n
  }

  lemma PrintIndexAt(ms: seq<Member>, n: nat)
    requires n < |ms|
    ensures PrintIndex(ms, n) < |ms|
    ensures MarkAll(BurstOrder(ms))[n] == Marked(ms[PrintIndex(ms, n)])
  {
    assert BurstOrder(ms)[n] == ms[PrintIndex(ms, n)];
  }

  /** The lines still to come when `cur` is in the buffer and `toks` are left. */
  ghost function BurstRest(me: string, c: Chan, name: string, first: bool, cur: seq<string>, used: nat,
                           toks: seq<string>): seq<seq<string>> {
    BurstLines(me, c, name, first, Pack(cur, used, toks, NextBase(me, c, name)))
  }

  lemma BurstStep(me: string, c: Chan, name: string, first: bool, cur: seq<string>, used: nat, toks: seq<string>)
    requires toks != []
    ensures var u := used + |toks[0]| + 1;
      BurstRest(me, c, name, first, cur, used, toks)
      == if u > BUFSIZE - 80
         then [BurstLine(me, c, name, first, cur + [toks[0]])]
              + BurstRest(me, c, name, false, [], NextBase(me, c, name), toks[1..])
         else BurstRest(me, c, name, first, cur + [toks[0]], u, toks[1..])
  {
    var base := NextBase(me, c, name);
    var rest := Pack([], base, toks[1..], base);
    assert ([cur + [toks[0]]] + rest)[1..] == rest;
  }

  lemma BurstEnd(me: string, c: Chan, name: string, first: bool, cur: seq<string>, used: nat)
    ensures BurstRest(me, c, name, first, cur, used, [])
         == if cur == [] then [] else [BurstLine(me, c, name, first, cur)]
  {
    assert [cur][1..] == [];
  }
}
