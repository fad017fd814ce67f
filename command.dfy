/**
 * The `/simplelimbo` administration command (`SimpleLimboCommand`): reload,
 * list, send one player, send everyone, show a limbo's details, and the tab
 * completion of its arguments. Replies go to the command's source as chat
 * messages in the log.
 */
module Command {
  import opened Util
  import opened Text
  import opened MessageUtil
  import opened Platform
  import opened Limbo

  const AdminPermission: string := "simplelimbo.admin"
  const NoPermissionMessage: string := "&cYou do not have permission."
  const ReloadedMessage: string := "&aSimpleLimbo reloaded."
  const SendUsage: string := "&cUsage: /simplelimbo send <player> <limbo>"
  const SendAllUsage: string := "&cUsage: /simplelimbo sendall <limbo>"
  const InfoUsage: string := "&cUsage: /simplelimbo info <limbo>"
  const PlayerNotFoundMessage: string := "&cPlayer not found."
  const SendFailedMessage: string := "&cFailed to send player. Limbo not found."
  const LimboNotFoundMessage: string := "&cLimbo not found."
  const HelpText: seq<string> := [
    "&eSimpleLimbo commands:",
    "&7/simplelimbo reload",
    "&7/simplelimbo list",
    "&7/simplelimbo send <player> <limbo>",
    "&7/simplelimbo sendall <limbo>",
    "&7/simplelimbo info <limbo>"
  ]

  /** The subcommands, in the order tab completion offers them. */
  const SubcommandNames: seq<string> := ["reload", "list", "send", "sendall", "info"]

  /** A chat reply to the command's source. */
  function Reply(to: Audience, text: string): Effect {
    SendMessage(to, ComponentOf(Some(text)))
  }

  /** `sendHelp`: the six help lines, in order. */
  function HelpEffects(to: Audience): (r: seq<Effect>)
    ensures |r| == |HelpText| && forall i :: 0 <= i < |r| ==> r[i] == Reply(to, HelpText[i])
  {
    [Reply(to, HelpText[0]), Reply(to, HelpText[1]), Reply(to, HelpText[2]),
     Reply(to, HelpText[3]), Reply(to, HelpText[4]), Reply(to, HelpText[5])]
  }

  datatype Subcommand = ReloadCmd | ListCmd | SendCmd | SendAllCmd | InfoCmd | HelpCmd

  function SubcommandName(c: Subcommand): string
    requires c != HelpCmd
  {
    match c
    case ReloadCmd => "reload"
    case ListCmd => "list"
    case SendCmd => "send"
    case SendAllCmd => "sendall"
    case InfoCmd => "info"
  }

  /** The `switch` of `execute`: the first argument, lower-cased, names the
      subcommand; no argument or an unknown one shows the help. */
  function ParseSubcommand(args: seq<string>): (c: Subcommand)
    ensures c != HelpCmd ==> args != [] && Lower(args[0]) == SubcommandName(c)
    ensures c == HelpCmd ==> args == [] || Lower(args[0]) !in SubcommandNames
  {
    if args == [] then HelpCmd
    else
      var sub := Lower(args[0]);
      if sub == "reload" then ReloadCmd
      else if sub == "list" then ListCmd
      else if sub == "send" then SendCmd
      else if sub == "sendall" then SendAllCmd
      else if sub == "info" then InfoCmd
      else HelpCmd
  }

  /** Every subcommand is recognised by its name typed in any case. */
  lemma ParseSubcommandIgnoresCase(c: Subcommand, typed: string, rest: seq<string>)
    requires c != HelpCmd && EqualsIgnoreCase(typed, SubcommandName(c))
    ensures ParseSubcommand([typed] + rest) == c
  {
    var name := SubcommandName(c);
    assert Lower(name) == name by {
      LowerIdempotent(name);
      match c
      case ReloadCmd => assert name == Lower("reload");
      case ListCmd => assert name == Lower("list");
      case SendCmd => assert name == Lower("send");
      case SendAllCmd => assert name == Lower("sendall");
      case InfoCmd => assert name == Lower("info");
    }
    assert ([typed] + rest)[0] == typed;
  }

  /** The reply of `list`: the names joined with ", ", or "none". */
  function ListMessage(names: seq<string>): (m: string)
    ensures names == [] ==> m == "&eLimbos: &fnone"
    ensures Join(names, ", ") != [] ==> m == "&eLimbos: &f" + Join(names, ", ")
  {
    var joined := Join(names, ", ");
    "&eLimbos: &f" + (if joined == [] then "none" else joined)
  }

  /** `ProxyServer.getPlayer(name)`: the online player of that name, ignoring case. */
  function FindPlayer(players: seq<OnlinePlayer>, name: string): (r: Option<OnlinePlayer>)
    ensures r.None? <==> forall k :: 0 <= k < |players| ==> !EqualsIgnoreCase(players[k].username, name)
    ensures r.Some? ==> r.value in players && EqualsIgnoreCase(r.value.username, name)
  {
    if players == [] then None
    else if EqualsIgnoreCase(players[0].username, name) then Some(players[0])
    else
      var r := FindPlayer(players[1..], name);
      assert (forall k :: 0 <= k < |players[1..]| ==> !EqualsIgnoreCase(players[1..][k].username, name))
        <==> (forall k :: 0 <= k < |players| ==> !EqualsIgnoreCase(players[k].username, name)) by {
        if exists k :: 0 <= k < |players| && EqualsIgnoreCase(players[k].username, name) {
          var k :| 0 <= k < |players| && EqualsIgnoreCase(players[k].username, name);
          assert players[1..][k - 1] == players[k];
        }
      }
      r
  }

  function SentMessage(username: string, limbo: string): string {
    "&aSent &f" + username + " &ato limbo &f" + limbo
  }

  function SentAllMessage(count: int, limbo: string): string {
    "&aSent &f" + IntToString(count) + " &aplayer(s) to limbo &f" + limbo
  }

  /** What `handleSend` does: the new limbo entries and the calls made. */
  function SendOutcome(known: set<string>, playerLimbos: map<PlayerId, string>, players: seq<OnlinePlayer>,
                       source: Audience, args: seq<string>): (r: (map<PlayerId, string>, seq<Effect>))
    ensures |args| < 3 ==> r == (playerLimbos, [Reply(source, SendUsage)])
    ensures |args| >= 3 && FindPlayer(players, args[1]).None? ==> r == (playerLimbos, [Reply(source, PlayerNotFoundMessage)])
    ensures |args| >= 3 && FindPlayer(players, args[1]).Some? && args[2] !in known ==>
      r == (playerLimbos, [Reply(source, SendFailedMessage)])
    ensures |args| >= 3 && FindPlayer(players, args[1]).Some? && args[2] in known ==>
      var p := FindPlayer(players, args[1]).value;
      r == (playerLimbos[p.id := args[2]], [SpawnInLimbo(p.id, args[2]), Reply(source, SentMessage(p.username, args[2]))])
  {
    if |args| < 3 then (playerLimbos, [Reply(source, SendUsage)])
    else
      match FindPlayer(players, args[1])
      case None => (playerLimbos, [Reply(source, PlayerNotFoundMessage)])
      case Some(p) =>
        if args[2] in known
        then (playerLimbos[p.id := args[2]], [SpawnInLimbo(p.id, args[2]), Reply(source, SentMessage(p.username, args[2]))])
        else (playerLimbos, [Reply(source, SendFailedMessage)])
  }

  /** Sending one player moves at most that player: every other entry is kept. */
  lemma SendMovesOnlyTheNamedPlayer(known: set<string>, playerLimbos: map<PlayerId, string>,
                                    players: seq<OnlinePlayer>, source: Audience, args: seq<string>, q: PlayerId)
    requires |args| < 3 || FindPlayer(players, args[1]).None? || FindPlayer(players, args[1]).value.id != q
    ensures var m := SendOutcome(known, playerLimbos, players, source, args).0;
      (q in m <==> q in playerLimbos) && (q in m ==> m[q] == playerLimbos[q])
  {
  }

  /** The limbo entries after sending each of `players` to `limbo`, in order. */
  function AssignAll(playerLimbos: map<PlayerId, string>, players: seq<OnlinePlayer>, limbo: string): map<PlayerId, string>
  {
    if players == [] then playerLimbos
    else AssignAll(playerLimbos, players[..|players| - 1], limbo)[players[|players| - 1].id := limbo]
  }

  /** After `sendall`, every online player is in the limbo and nobody else moved. */
  lemma {:induction false} AssignAllSendsEveryone(playerLimbos: map<PlayerId, string>, players: seq<OnlinePlayer>,
                                                  limbo: string, q: PlayerId)
    ensures var m := AssignAll(playerLimbos, players, limbo);
      (q in m <==> q in playerLimbos || exists k :: 0 <= k < |players| && players[k].id == q)
      && ((exists k :: 0 <= k < |players| && players[k].id == q) ==> m[q] == limbo)
      && ((forall k :: 0 <= k < |players| ==> players[k].id != q) && q in playerLimbos ==> m[q] == playerLimbos[q])
    decreases |players|
  {
    if players != [] {
      var init := players[..|players| - 1];
      AssignAllSendsEveryone(playerLimbos, init, limbo, q);
      assert forall k :: 0 <= k < |init| ==> init[k] == players[k];
      if q != players[|players| - 1].id {
        if exists k :: 0 <= k < |players| && players[k].id == q {
          var k :| 0 <= k < |players| && players[k].id == q;
          assert init[k].id == q;
        }
      }
    }
  }

  /** The spawn requests of `sendall`, one per player in order. */
  function SpawnAll(players: seq<OnlinePlayer>, limbo: string): (r: seq<Effect>)
    ensures |r| == |players| && forall i :: 0 <= i < |r| ==> r[i] == SpawnInLimbo(players[i].id, limbo)
  {
    if players == [] then []
    else SpawnAll(players[..|players| - 1], limbo) + [SpawnInLimbo(players[|players| - 1].id, limbo)]
  }

  /** The four lines of `info`. */
  function InfoLines(to: Audience, name: string, count: nat, dimension: string, gamemode: string): seq<Effect> {
    [Reply(to, "&eLimbo: &f" + name),
     Reply(to, "&ePlayers: &f" + IntToString(count)),
     Reply(to, "&eDimension: &f" + dimension),
     Reply(to, "&eGamemode: &f" + gamemode)]
  }

  /** Keep the values that start with the input, ignoring case, in order. */
  function Filter(values: seq<string>, input: string): (r: seq<string>)
    ensures |r| <= |values|
    ensures forall v :: v in r <==> v in values && StartsWith(Lower(v), Lower(input))
  {
    if values == [] then []
    else
      var rest := Filter(values[1..], input);
      if StartsWith(Lower(values[0]), Lower(input)) then [values[0]] + rest else rest
  }

  /** A single value is kept exactly when it starts with the input, ignoring case. */
  lemma FilterSingleton(v: string, input: string)
    ensures Filter([v], input) == if StartsWith(Lower(v), Lower(input)) then [v] else []
  {
    assert [v][1..] == [];
  }

  /** Filtering keeps the order of the values and every repetition: the
      result for a concatenation is the concatenation of the results. */
  lemma {:induction false} FilterAppend(a: seq<string>, b: seq<string>, input: string)
    ensures Filter(a + b, input) == Filter(a, input) + Filter(b, input)
    decreases |a|
  {
    if a == [] {
      assert a + b == b;
    } else {
      assert (a + b)[1..] == a[1..] + b;
      assert (a + b)[0] == a[0];
      FilterAppend(a[1..], b, input);
    }
  }

  /** An empty input keeps every value. */
  lemma {:induction false} FilterEmptyKeepsAll(values: seq<string>)
    ensures Filter(values, "") == values
    decreases |values|
  {
    if values != [] {
      FilterEmptyKeepsAll(values[1..]);
    }
  }

  /** Typing more narrows the suggestions: filtering what an input kept by a
      longer input gives what the longer input keeps directly. */
  lemma {:induction false} FilterNarrows(values: seq<string>, a: string, b: string)
    requires StartsWith(Lower(b), Lower(a))
    ensures Filter(Filter(values, a), b) == Filter(values, b)
    decreases |values|
  {
    if values != [] {
      FilterNarrows(values[1..], a, b);
      var v := Lower(values[0]);
      if StartsWith(v, Lower(b)) {
        assert StartsWith(v, Lower(a));
      }
    }
  }

  /** The case of the input does not matter. */
  lemma {:induction false} FilterIgnoresCase(values: seq<string>, a: string, b: string)
    requires EqualsIgnoreCase(a, b)
    ensures Filter(values, a) == Filter(values, b)
    decreases |values|
  {
    if values != [] {
      FilterIgnoresCase(values[1..], a, b);
    }
  }

  /** `suggest`, given the online players' names and the limbo names in the
      order the proxy and the manager list them. */
  function Suggestions(args: seq<string>, usernames: seq<string>, limboNames: seq<string>): (r: seq<string>)
    ensures args == [] ==> r == SubcommandNames
    ensures |args| == 1 ==> r == Filter(SubcommandNames, args[0])
    ensures |args| == 2 && EqualsIgnoreCase(args[0], "send") ==> r == Filter(usernames, args[1])
    ensures |args| == 2 && (EqualsIgnoreCase(args[0], "sendall") || EqualsIgnoreCase(args[0], "info")) ==>
      r == Filter(limboNames, args[1])
    ensures |args| == 3 && EqualsIgnoreCase(args[0], "send") ==> r == Filter(limboNames, args[2])
    ensures |args| > 3 ==> r == []
  {
    if args == [] then SubcommandNames
    else if |args| == 1 then Filter(SubcommandNames, args[0])
    else
      assert EqualsIgnoreCase(args[0], "send") ==>
        !EqualsIgnoreCase(args[0], "sendall") && !EqualsIgnoreCase(args[0], "info") by {
        assert |Lower("send")| != |Lower("sendall")|;
        assert Lower("send")[0] != Lower("info")[0];
      }
      if |args| == 2 && (EqualsIgnoreCase(args[0], "send") || EqualsIgnoreCase(args[0], "info")
                         || EqualsIgnoreCase(args[0], "sendall")) then
        if EqualsIgnoreCase(args[0], "send") then Filter(usernames, args[1]) else Filter(limboNames, args[1])
      else if |args| == 3 && EqualsIgnoreCase(args[0], "send") then Filter(limboNames, args[2])
      else []
  }

  function Usernames(players: seq<OnlinePlayer>): (r: seq<string>)
    ensures |r| == |players| && forall i :: 0 <= i < |r| ==> r[i] == players[i].username
  {
    if players == [] then [] else [players[0].username] + Usernames(players[1..])
  }

  /** `SimpleLimboCommand`. */
  class SimpleLimboCommand {
    const manager: LimboManager
    const proxy: Proxy

    constructor (manager: LimboManager, proxy: Proxy)
      ensures this.manager == manager && this.proxy == proxy
    {
      this.manager := manager;
      this.proxy := proxy;
    }

    /** `execute`. `permitted` is the source's `simplelimbo.admin`
        permission; `players` are the online players in the proxy's order.
        `listOrder` is the order the limbo names were listed in. */
    method Execute(source: Audience, permitted: bool, args: seq<string>, players: seq<OnlinePlayer>)
      returns (ghost listOrder: seq<string>)
      requires manager.Valid() && manager.proxy == proxy
      modifies manager, proxy
      ensures manager.Valid()
      ensures manager.limbos == old(manager.limbos) && manager.limboPlayers == old(manager.limboPlayers)
      ensures !permitted ==>
        manager.playerLimbos == old(manager.playerLimbos) && Appended(proxy, [Reply(source, NoPermissionMessage)])
      ensures permitted && ParseSubcommand(args) == HelpCmd ==>
        manager.playerLimbos == old(manager.playerLimbos) && Appended(proxy, HelpEffects(source))
      ensures permitted && ParseSubcommand(args) == ReloadCmd ==>
        manager.playerLimbos == old(manager.playerLimbos)
        && Appended(proxy, [ReloadPlugin, Reply(source, ReloadedMessage)])
      ensures permitted && ParseSubcommand(args) == ListCmd ==>
        manager.playerLimbos == old(manager.playerLimbos)
        && Distinct(listOrder) && (forall n :: n in listOrder <==> n in manager.limbos)
        && Appended(proxy, [Reply(source, ListMessage(listOrder))])
      ensures permitted && ParseSubcommand(args) == SendCmd ==>
        var r := SendOutcome(manager.limbos.Keys, old(manager.playerLimbos), players, source, args);
        manager.playerLimbos == r.0 && Appended(proxy, r.1)
      ensures permitted && ParseSubcommand(args) == SendAllCmd ==>
        SendAllDone(source, args, players, old(manager.playerLimbos))
      ensures permitted && ParseSubcommand(args) == InfoCmd ==>
        manager.playerLimbos == old(manager.playerLimbos) && InfoDone(source, args)
    {
      listOrder := [];
      if !permitted {
        proxy.log := proxy.log + [Reply(source, NoPermissionMessage)];
        return;
      }
      var sub := ParseSubcommand(args);
      match sub {
        case ReloadCmd => HandleReload(source);
        case ListCmd => listOrder := HandleList(source);
        case SendCmd => HandleSend(source, args, players);
        case SendAllCmd => HandleSendAll(source, args, players);
        case InfoCmd => HandleInfo(source, args);
        case HelpCmd => SendHelp(source);
      }
    }

    /** The `reload` branch: reload the plugin, then confirm. */
    method HandleReload(source: Audience)
      modifies proxy
      ensures Appended(proxy, [ReloadPlugin, Reply(source, ReloadedMessage)])
    {
      proxy.log := proxy.log + [ReloadPlugin];
      proxy.log := proxy.log + [Reply(source, ReloadedMessage)];
    }

    /** The `list` branch: one reply listing every loaded limbo once, in
        `names`' order. */
    method HandleList(source: Audience) returns (ghost names: seq<string>)
      modifies proxy
      ensures Distinct(names) && (forall n :: n in names <==> n in manager.limbos)
      ensures Appended(proxy, [Reply(source, ListMessage(names))])
    {
      var listed := Enumerate(manager.GetLimboNames());
      names := listed;
      proxy.log := proxy.log + [Reply(source, ListMessage(listed))];
    }

    /** What `handleSendAll` leaves: with fewer than two arguments only the
        usage; otherwise every online player sent, in order, when the limbo
        exists, and the count of players sent. */
    twostate predicate SendAllDone(source: Audience, args: seq<string>, players: seq<OnlinePlayer>,
                                   before: map<PlayerId, string>)
      reads this, manager, proxy
    {
      if |args| < 2 then manager.playerLimbos == before && Appended(proxy, [Reply(source, SendAllUsage)])
      else
        var limbo := args[1];
        var known := limbo in manager.limbos;
        manager.playerLimbos == (if known then AssignAll(before, players, limbo) else before)
        && Appended(proxy, (if known then SpawnAll(players, limbo) else [])
                           + [Reply(source, SentAllMessage(if known then |players| else 0, limbo))])
    }

    /** What `handleInfo` sends: the usage, "not found", or the four lines
        about the limbo of that name. */
    twostate predicate InfoDone(source: Audience, args: seq<string>)
      reads this, manager, manager.limbos.Values, proxy
    {
      if |args| < 2 then Appended(proxy, [Reply(source, InfoUsage)])
      else if args[1] !in manager.limbos then Appended(proxy, [Reply(source, LimboNotFoundMessage)])
      else
        var config := manager.limbos[args[1]].config;
        Appended(proxy, InfoLines(source, args[1], manager.GetPlayerCount(args[1]), config.dimension, config.gamemode))
    }

    /** `handleSend`. */
    method HandleSend(source: Audience, args: seq<string>, players: seq<OnlinePlayer>)
      requires manager.Valid() && manager.proxy == proxy
      modifies manager, proxy
      ensures manager.Valid()
      ensures manager.limbos == old(manager.limbos) && manager.limboPlayers == old(manager.limboPlayers)
      ensures var r := SendOutcome(manager.limbos.Keys, old(manager.playerLimbos), players, source, args);
        manager.playerLimbos == r.0 && Appended(proxy, r.1)
    {
      if |args| < 3 {
        proxy.log := proxy.log + [Reply(source, SendUsage)];
        return;
      }
      var found := FindPlayer(players, args[1]);
      if found.None? {
        proxy.log := proxy.log + [Reply(source, PlayerNotFoundMessage)];
        return;
      }
      var player := found.value;
      var ok := manager.SendPlayerToLimbo(player.id, args[2]);
      if ok {
        proxy.log := proxy.log + [Reply(source, SentMessage(player.username, args[2]))];
      } else {
        proxy.log := proxy.log + [Reply(source, SendFailedMessage)];
      }
    }

    /** `handleSendAll`: `sent` counts the players the manager accepted. */
    method HandleSendAll(source: Audience, args: seq<string>, players: seq<OnlinePlayer>)
      requires manager.Valid() && manager.proxy == proxy
      modifies manager, proxy
      ensures manager.Valid()
      ensures manager.limbos == old(manager.limbos) && manager.limboPlayers == old(manager.limboPlayers)
      ensures SendAllDone(source, args, players, old(manager.playerLimbos))
    {
      if |args| < 2 {
        proxy.log := proxy.log + [Reply(source, SendAllUsage)];
        return;
      }
      var limbo := args[1];
      var sent := SendEach(players, limbo);
      proxy.log := proxy.log + [Reply(source, SentAllMessage(sent, limbo))];
    }

    /** The loop of `handleSendAll`: every online player, in order, sent to
        the limbo when it exists; `sent` counts the players accepted. */
    method SendEach(players: seq<OnlinePlayer>, limbo: string) returns (sent: nat)
      requires manager.Valid() && manager.proxy == proxy
      modifies manager, proxy
      ensures manager.Valid()
      ensures manager.limbos == old(manager.limbos) && manager.limboPlayers == old(manager.limboPlayers)
      ensures var known := limbo in manager.limbos;
        manager.playerLimbos == (if known then AssignAll(old(manager.playerLimbos), players, limbo)
                                 else old(manager.playerLimbos))
        && Appended(proxy, if known then SpawnAll(players, limbo) else [])
        && sent == (if known then |players| else 0)
    {
      ghost var known := limbo in manager.limbos;
      sent := 0;
      for i := 0 to |players|
        invariant manager.Valid()
        invariant manager.limbos == old(manager.limbos) && manager.limboPlayers == old(manager.limboPlayers)
        invariant manager.playerLimbos == (if known then AssignAll(old(manager.playerLimbos), players[..i], limbo)
                                           else old(manager.playerLimbos))
        invariant Appended(proxy, if known then SpawnAll(players[..i], limbo) else [])
        invariant sent == (if known then i else 0)
      {
        assert players[..i + 1][..i] == players[..i];
        var ok := manager.SendPlayerToLimbo(players[i].id, limbo);
        if ok {
          sent := sent + 1;
        }
      }
      assert players[..|players|] == players;
    }

    /** `handleInfo`. */
    method HandleInfo(source: Audience, args: seq<string>)
      requires manager.Valid()
      modifies proxy
      ensures InfoDone(source, args)
    {
      if |args| < 2 {
        proxy.log := proxy.log + [Reply(source, InfoUsage)];
        return;
      }
      var instance := manager.GetLimbo(args[1]);
      if instance.None? {
        proxy.log := proxy.log + [Reply(source, LimboNotFoundMessage)];
        return;
      }
      var name := instance.value.name;
      var config := instance.value.config;
      proxy.log := proxy.log + InfoLines(source, name, manager.GetPlayerCount(name), config.dimension, config.gamemode);
    }

    /** `sendHelp`. */
    method SendHelp(source: Audience)
      modifies proxy
      ensures Appended(proxy, HelpEffects(source))
    {
      var i := 0;
      while i < |HelpText|
        invariant 0 <= i <= |HelpText|
        invariant Appended(proxy, HelpEffects(source)[..i])
      {
        proxy.log := proxy.log + [Reply(source, HelpText[i])];
        i := i + 1;
      }
    }

    /** `suggest`, with the limbo names in the order the manager's table lists them. */
    method Suggest(args: seq<string>, players: seq<OnlinePlayer>) returns (r: seq<string>, ghost limboOrder: seq<string>)
      ensures Distinct(limboOrder) && forall n :: n in limboOrder <==> n in manager.limbos
      ensures r == Suggestions(args, Usernames(players), limboOrder)
      ensures args == [] ==> r == SubcommandNames
      ensures |args| == 1 ==> r == Filter(SubcommandNames, args[0])
      ensures |args| == 2 && EqualsIgnoreCase(args[0], "send") ==> r == Filter(Usernames(players), args[1])
      ensures |args| == 2 && (EqualsIgnoreCase(args[0], "sendall") || EqualsIgnoreCase(args[0], "info")) ==>
        forall s :: s in r <==> s in manager.limbos && StartsWith(Lower(s), Lower(args[1]))
      ensures |args| == 3 && EqualsIgnoreCase(args[0], "send") ==>
        forall s :: s in r <==> s in manager.limbos && StartsWith(Lower(s), Lower(args[2]))
      ensures |args| > 3 ==> r == []
    {
      var names := Enumerate(manager.GetLimboNames());
      limboOrder := names;
      r := Suggestions(args, Usernames(players), names);
    }
  }
}
