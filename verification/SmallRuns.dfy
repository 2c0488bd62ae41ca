/** Small runs of the server that show where a property of all runs ends. */
module SmallRuns {
  import opened Bytes
  import opened Messages
  import opened Registry
  import opened Server
  import opened ServerSafety
  import opened ServerRuns
  import opened Client
  import opened Replica
  import opened NameIndex
  import opened EndToEnd

  // ----- one client, on descriptor 3 -----

  function Record(fd: Fd, id: nat, nickname: seq<Byte>): ClientRecord {
    ClientRecord(fd, id, nickname, nickname != [])
  }

  function Index(nickname: seq<Byte>): map<seq<Byte>, nat> {
    if nickname == [] then map[] else map[nickname := 1]
  }

  function Alone(nickname: seq<Byte>, outbox: seq<AppMessage>): Server {
    Server(Registry(map[3 := Record(3, 1, nickname)], map[1 := 3], Index(nickname)), 2, {}, {}, map[3 := outbox], {})
  }

  function Greeted(): seq<AppMessage> {
    [AssignId(1, true)]
  }

  lemma FirstAccept()
    ensures Follows(Initial(), Accept(3), Alone([], Greeted()))
  {
    var s0, s1 := Initial(), Alone([], Greeted());
    assert HasSpareId(s0) by {
      assert 1 !in s0.reg.fdById && 1 !in s0.banned;
    }
    AllocatesSmallest(s0);
    assert s0.free - s0.banned == {};
    assert SkipBanned(1, {}) == 1;
    assert s0.reg.Add(3, 1) == s1.reg;
    assert s1.reg.clients.Keys - {3} == {};
    assert PushedAll(s1.outbox, {}, UserJoined(1, [])) == s1.outbox;
  }

  lemma OneUser(names: NameMap)
    requires names.Keys == {1} && names[1] == []
    ensures SortedUsers(names) == [UserInfo(1, [])]
  {
    hide SortedUsers;
    SortedUsersContents(names);
    var users := SortedUsers(names);
    assert |users| == 1 && users[0] == UserInfo(1, []);
  }

  function Listed(): seq<AppMessage> {
    [AssignId(1, true), UsersList([UserInfo(1, [])])]
  }

  lemma FirstList()
    ensures Follows(Alone([], Greeted()), Data(3, Received(ListUsers)), Alone([], Listed()))
  {
    hide SortedUsers;
    var s := Alone([], Greeted());
    if Valid(s) {
      OneUser(s.reg.Names());
      assert Listed() == Greeted() + [UsersList([UserInfo(1, [])])];
    }
  }

  lemma FirstRegister(name: seq<Byte>, outbox: seq<AppMessage>)
    requires |name| == 1
    ensures Follows(Alone([], outbox), Data(3, Received(Register(name))), Alone(name, outbox))
  {
    var s, s' := Alone([], outbox), Alone(name, outbox);
    assert s.reg.SetNickname(3, name) == s'.reg;
    assert s.reg.clients.Keys - {3} == {};
    assert PushedAll(s.outbox, {}, UserJoined(1, name)) == s.outbox;
  }

  lemma ListedView()
    ensures ViewAfter(Listed()).nicknameById == map[1 := []]
  {
    var users := [UserInfo(1, [])];
    assert Listed() == ([] + [AssignId(1, true)]) + [UsersList(users)];
    ViewAfterAppend([], AssignId(1, true));
    ViewAfterAppend([] + [AssignId(1, true)], UsersList(users));
    assert users[..0] == [];
    assert AllNamed(EmptyView(), users) == Named(AllNamed(EmptyView(), users[..0]), 1, []);
  }

  /** The client on g has an entry for itself that differs from its nickname in the registry. */
  ghost predicate OwnEntryWrong(s: Server, g: Fd) {
    && g in s.reg.clients && g in s.outbox
    && var own, v := s.reg.clients[g].id, ViewAfter(s.outbox[g]).nicknameById;
       own in v && v[own] != s.reg.clients[g].nickname
  }

  /**
   * A foreign client may ask for the list first and then register as "a". Its copy still calls it "",
   * and the registry calls it "a". The program's own client never sends its Register that late.
   */
  lemma ForeignClientMayBeStale() returns (r: Run)
    ensures IsRun(r) && OwnEntryWrong(r.states[|r.events|], 3)
  {
    hide Follows, ViewAfter;
    FirstAccept();
    FirstList();
    FirstRegister([97], Listed());
    ListedView();
    r := Run([Initial(), Alone([], Greeted()), Alone([], Listed()), Alone([97], Listed())],
             [Accept(3), Data(3, Received(ListUsers)), Data(3, Received(Register([97])))]);
    assert IsRun(r);
    assert OwnEntryWrong(r.states[3], 3);
  }

  // ----- two clients, on descriptors 3 and 4 -----

  function Two(nickname: seq<Byte>, first: seq<AppMessage>, second: seq<AppMessage>): Server {
    Server(Registry(map[3 := Record(3, 1, nickname), 4 := Record(4, 2, [])], map[1 := 3, 2 := 4], Index(nickname)),
           3, {}, {}, map[3 := first, 4 := second], {})
  }

  function FirstTold(): seq<AppMessage> {
    [AssignId(1, true), UserJoined(2, [])]
  }

  function SecondTold(): seq<AppMessage> {
    [AssignId(2, false)]
  }

  lemma NextIdIsTwo(s: Server)
    requires s.nextId == 2 && s.free == {} && s.banned == {} && s.reg.fdById.Keys == {1}
    ensures HasSpareId(s) && AllocatedId(s) == 2 && Allocated(s) == s.(nextId := 3)
  {
    assert 2 !in s.reg.fdById && 2 !in s.banned;
    assert s.free - s.banned == {};
    assert SkipBanned(2, {}) == 2;
  }

  lemma SecondAccepted()
    ensures NextIdIs(Alone([], Greeted()), 2) && Accepted(Alone([], Greeted()), 4) == Two([], FirstTold(), SecondTold())
  {
    var s, s' := Alone([], Greeted()), Two([], FirstTold(), SecondTold());
    NextIdIsTwo(s);
    hide SkipBanned, AllocatedId, Allocated;
    assert s.reg.Add(4, 2) == s'.reg;
    assert s'.reg.clients.Keys - {4} - s.shut == {3};
    assert FirstTold() == Greeted() + [UserJoined(2, [])];
    assert PushedAll(s.outbox[4 := SecondTold()], {3}, UserJoined(2, [])) == s'.outbox;
  }

  ghost predicate NextIdIs(s: Server, id: nat) {
    s.nextId < U32_LIMIT && 0 !in s.banned && HasSpareId(s) && AllocatedId(s) == id
  }

  lemma SecondAccept()
    ensures Follows(Alone([], Greeted()), Accept(4), Two([], FirstTold(), SecondTold()))
  {
    hide Valid, Accepted;
    SecondAccepted();
  }

  /** The first client registers, or registers again under another nickname: the second one is told. */
  lemma Renames(nickname: seq<Byte>, name: seq<Byte>, first: seq<AppMessage>, second: seq<AppMessage>)
    requires name != nickname && 0 < |name| <= MAX_U16_COUNT && name != BroadcastRecipient()
    ensures Follows(Two(nickname, first, second), Data(3, Received(Register(name))),
                    Two(name, first, second + [UserJoined(1, name)]))
  {
    hide Follows;
    RegisterFollows(Two(nickname, first, second), 3, name);
    RenamesTo(nickname, name, first, second);
  }

  lemma RegisterFollows(s: Server, fd: Fd, name: seq<Byte>)
    requires fd in s.reg.clients && s.reg.clients[fd].id !in s.banned && |name| <= MAX_U16_COUNT
    ensures Follows(s, Data(fd, Received(Register(name))), Registered(s, fd, name))
  {
    hide Registered, Valid;
  }

  lemma RenamedRegistry(nickname: seq<Byte>, name: seq<Byte>, first: seq<AppMessage>, second: seq<AppMessage>)
    requires name != nickname && name != []
    ensures Two(nickname, first, second).reg.SetNickname(3, name) == Two(name, first, second + [UserJoined(1, name)]).reg
  {
    assert (Index(nickname) - {nickname})[name := 1] == Index(name);
  }

  lemma RenamesTo(nickname: seq<Byte>, name: seq<Byte>, first: seq<AppMessage>, second: seq<AppMessage>)
    requires name != nickname && name != [] && name != BroadcastRecipient()
    ensures Registered(Two(nickname, first, second), 3, name) == Two(name, first, second + [UserJoined(1, name)])
  {
    var s, s' := Two(nickname, first, second), Two(name, first, second + [UserJoined(1, name)]);
    RenamedRegistry(nickname, name, first, second);
    assert s.reg.clients.Keys - {3} == {4};
    assert PushedAll(s.outbox, {4}, UserJoined(1, name)) == s'.outbox;
  }

  // Names of one byte.
  const A: seq<Byte> := [97]
  const B: seq<Byte> := [98]

  lemma RenamedView()
    ensures ViewAfter(SecondTold() + [UserJoined(1, A)] + [UserJoined(1, B)]) == View(map[1 := B], map[A := 1, B := 1])
  {
    hide ViewAfter;
    assert SecondTold() == [] + [AssignId(2, false)];
    ViewAfterAppend([], AssignId(2, false));
    ViewAfterAppend(SecondTold(), UserJoined(1, A));
    ViewAfterAppend(SecondTold() + [UserJoined(1, A)], UserJoined(1, B));
    assert ViewAfter([]) == EmptyView() by {
      NothingSeen();
    }
    assert A != B;
  }

  lemma NothingSeen()
    ensures ViewAfter([]) == EmptyView()
  {
  }

  /**
   * The first client registers as "a" and again as "b". From then on the second client looks up both
   * "a" and "b" as client 1, and its two maps are no longer inverse.
   */
  lemma RenameBreaksAnIndex() returns (r: Run)
    ensures IsRun(r) && 4 in r.states[|r.events|].outbox
    ensures var v := ViewAfter(r.states[|r.events|].outbox[4]);
            A in v.idByNickname && v.idByNickname[A] == 1 && !Inverse(v)
  {
    hide Follows, ViewAfter;
    FirstAccept();
    SecondAccept();
    Renames([], A, FirstTold(), SecondTold());
    Renames(A, B, FirstTold(), SecondTold() + [UserJoined(1, A)]);
    RenamedView();
    var told := SecondTold() + [UserJoined(1, A)] + [UserJoined(1, B)];
    r := Run([Initial(), Alone([], Greeted()), Two([], FirstTold(), SecondTold()),
              Two(A, FirstTold(), SecondTold() + [UserJoined(1, A)]), Two(B, FirstTold(), told)],
             [Accept(3), Accept(4), Data(3, Received(Register(A))), Data(3, Received(Register(B)))]);
    assert IsRun(r);
    assert r.states[|r.events|].outbox[4] == told;
    assert A != B;
  }

  // ----- a nickname that goes in and does not come out -----

  function LongName(): (name: seq<Byte>)
    ensures |name| == 65528
  {
    seq(65528, i => 97)
  }

  /**
   * The first client registers under 65528 bytes. Its Register crosses; the UserJoined the second client
   * is handed on account of it does not.
   */
  lemma LongNicknameDoesNotCross() returns (r: Run)
    ensures IsRun(r) && |r.events| == 3 && r.events[2] == Data(3, Received(Register(LongName())))
    ensures Crosses(Register(LongName()))
    ensures 4 in r.states[3].outbox && r.states[3].outbox[4] == SecondTold() + [UserJoined(1, LongName())]
    ensures !Crosses(UserJoined(1, LongName()))
  {
    hide Follows, Crosses, LongName;
    FirstAccept();
    SecondAccept();
    Renames([], LongName(), FirstTold(), SecondTold());
    CrossesIffFits(Register(LongName()));
    CrossesIffFits(UserJoined(1, LongName()));
    var told := SecondTold() + [UserJoined(1, LongName())];
    r := Run([Initial(), Alone([], Greeted()), Two([], FirstTold(), SecondTold()), Two(LongName(), FirstTold(), told)],
             [Accept(3), Accept(4), Data(3, Received(Register(LongName())))]);
    assert IsRun(r);
    assert r.states[3].outbox[4] == told;
  }
}
