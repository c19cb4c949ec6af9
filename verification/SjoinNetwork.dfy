/** SJOIN over a tree of servers, and the burst that joins two trees: every server ends
    with the same view of the channel, however many lines the burst takes. */
module SjoinNetwork {
  import opened Text
  import opened Channels
  import opened ChannelViews
  import opened SjoinLines
  import opened SjoinAgreement
  import opened SjoinLengths

  /** A server as seen from the link a message comes from: its channel, the users it
      knows to be behind that link, and its other links. */
  datatype Net = Node(chan: Option<Chan>, who: map<string, string>, links: seq<Net>)

  /** An SJOIN line enters the tree at the root and is relayed to every server. */
  function Flood(net: Net, parv: seq<string>): Net
    decreases net
  {
    if !Accepts(true, parv) then net
    else
      var r := SJoin(net.chan, parv, net.who);
      Node(Some(r.chan), net.who,
           if r.fwd.None? then net.links
           else seq(|net.links|, i requires 0 <= i < |net.links| => Flood(net.links[i], r.fwd.value)))
  }

  function FloodAll(net: Net, lines: seq<seq<string>>): Net {
    if lines == [] then net else Flood(FloodAll(net, lines[..|lines| - 1]), lines[|lines| - 1])
  }

  /** Every server of the tree has the view `v`. */
  predicate AllView(net: Net, v: Option<View>)
    decreases net
  {
    ViewOpt(net.chan) == v && forall i :: 0 <= i < |net.links| ==> AllView(net.links[i], v)
  }

  /** Every server of the tree is in a good state and knows the users `names`. */
  predicate NetOk(net: Net, names: map<string, string>)
    decreases net
  {
    && ChanOptOk(net.chan) && NamesOk(net.who)
    && (forall n <- names :: n in net.who && net.who[n] == names[n])
    && forall i :: 0 <= i < |net.links| ==> NetOk(net.links[i], names)
  }

  /** A good line that brings a user, loses no modes, is sent on as a whole and names only users in
      `names`. */
  predicate LineBrings(v: Option<View>, parv: seq<string>, who: map<string, string>, names: map<string, string>) {
    && LineOk(parv) && DescOf(parv, who).users != [] && !LosesModes(v, parv) && Fits(v, parv, who)
    && Naming(LineTokens(parv), who, names.Keys)
  }

  lemma SJoinOk(was: Option<Chan>, parv: seq<string>, who: map<string, string>)
    requires ChanOptOk(was) && LineOk(parv)
    ensures ChanOk(SJoin(was, parv, who).chan)
  {
    hide ForwardRest, WireParv, ParseModes, JoinAll, Tokens, StrLess, Stripped;
  }

  /** Agreement over the whole tree, by induction on the tree. */
  lemma {:induction false} FloodAgrees(net: Net, parv: seq<string>, v: Option<View>, names: map<string, string>)
    requires AllView(net, v) && NetOk(net, names) && LineBrings(v, parv, net.who, names)
    ensures AllView(Flood(net, parv), Some(Apply(v, DescOf(parv, net.who))))
    ensures NetOk(Flood(net, parv), names) && Flood(net, parv).who == net.who
    decreases net
  {
    hide SJoin, DescOf, Apply, ParseModes, Tokens, ViewOf, LosesModes, MergeMode, Bare, Fits, RelayParv, ModeOk, Relay,
         LineTokens, Accepted, Sendable;
    var d := DescOf(parv, net.who);
    var r := SJoin(net.chan, parv, net.who);
    SJoinRefines(net.chan, parv, net.who);
    SJoinOk(net.chan, parv, net.who);
    RelayReads(net.chan, parv, net.who, net.who, names.Keys);
    var fwd := r.fwd.value;
    forall i | 0 <= i < |net.links|
      ensures AllView(Flood(net.links[i], fwd), Some(Apply(v, d)))
      ensures NetOk(Flood(net.links[i], fwd), names)
    {
      var sub := net.links[i];
      assert AllView(sub, v) && NetOk(sub, names);
      LinkAgrees(net, sub, parv, v, names);
      FloodAgrees(sub, fwd, v, names);
    }
  }

  /** What one server of the tree hands to the next. */
  lemma LinkAgrees(net: Net, sub: Net, parv: seq<string>, v: Option<View>, names: map<string, string>)
    requires ViewOpt(net.chan) == v == ViewOpt(sub.chan)
    requires NetOk(net, names) && NetOk(sub, names) && LineBrings(v, parv, net.who, names)
    ensures var fwd := SJoin(net.chan, parv, net.who).fwd;
      && fwd.Some? && LineBrings(v, fwd.value, sub.who, names)
      && Apply(v, DescOf(fwd.value, sub.who)) == Apply(v, DescOf(parv, net.who))
  {
    hide SJoin, ParseModes, Tokens, MergeMode, Bare, UsersOf, StatusOf, AddUsers, Atoi, Fits, LineParv, Accepted, KeyOk,
         LineTokens, SentNames, RelayRest, LineSize, RelayWord, RelayArgs;
    GoodView(net.chan);
    assert SameNames(LineTokens(parv), net.who, sub.who);
    RelayReads(net.chan, parv, net.who, sub.who, names.Keys);
    RelayAgrees(v, DescOf(parv, net.who), ZeroModes(parv));
    var fwd := SJoin(net.chan, parv, net.who).fwd.value;
    LosesIs(v, parv);
    LosesIs(v, fwd);
    LineHead(parv[0], Taken(v, parv).ts, parv[2], RelayWord(v, parv), RelayArgs(v, parv), SentNames(v, parv, net.who));
    SentNaming(LineTokens(fwd), sub.who, names.Keys);
    TextAgain(v, parv, fwd, net.who, sub.who, names.Keys);
    FitsAgain(v, parv, fwd, net.who, sub.who);
  }

  lemma SentNaming(toks: seq<string>, who: map<string, string>, names: set<string>)
    requires Sendable(toks, names)
    ensures Naming(toks, who, names)
  {
    hide Bare;
  }

  lemma FitsAgain(v: Option<View>, parv: seq<string>, fwd: seq<string>, who: map<string, string>, who': map<string,
      string>)
    requires Parses(parv) && Parses(fwd) && parv[0] == fwd[0]
    requires Fits(v, parv, who) && RelayRest(v, fwd, who') == RelayRest(v, parv, who)
    ensures Fits(v, fwd, who')
  {
    hide RelayRest, ParseModes;
  }
}
