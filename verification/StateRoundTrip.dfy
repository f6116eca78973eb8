/** A serialized cloud state reads back as itself, less what the format leaves out. */
module StateRoundTrip {
  import opened Options
  import opened Json
  import JsonRoundTrip
  import opened StateCodec

  // ---- what the format keeps ----

  /** An entry without a hash the format cannot hold. */
  function Cut(e: FileEntry): FileEntry {
    e.(sha := if |e.sha| <= 20 then e.sha else [])
  }

  function Kept(files: map<Bytes, FileEntry>, reserved: Bytes -> bool): map<Bytes, FileEntry> {
    map name | name in files && !reserved(name) :: Cut(files[name])
  }

  /** Reserved names, sessions that are not active, empty quotas and hashes of more than 20 bytes are dropped. */
  function Normal(s: State, reserved: Bytes -> bool): State {
    s.(files := Kept(s.files, reserved),
       session := if ActiveSession(s.session) then s.session else NO_SESSION,
       quota := if HasQuota(s.quota) then s.quota else NO_QUOTA)
  }

  ghost predicate SmallFile(e: FileEntry) {
    e.timestamp <= EXACT && e.size <= EXACT
  }

  /** Every number that is written is one a double holds exactly. */
  ghost predicate Small(s: State, reserved: Bytes -> bool) {
    && s.cn <= EXACT && s.buildId <= EXACT
    && s.quota.quotaBytes <= EXACT && s.quota.fetchedAt <= EXACT && s.quota.buildId <= EXACT
    && s.session.time <= EXACT
    && forall name :: name in s.files && !reserved(name) ==> SmallFile(s.files[name])
  }

  // ---- numbers in text ----

  lemma {:induction false} AllDigits(s: Bytes)
    requires forall i :: 0 <= i < |s| ==> IsDigit(s[i])
    ensures LeadingDigits(s) == |s|
  {
    if |s| == 0 {
    } else {
      assert IsDigit(s[0]);
      AllDigits(s[1..]);
    }
  }

  lemma ClientIdBack(n: u64)
    ensures ParseU64(Digits(n)) == n
  {
    var t := Digits(n);
    assert IsDigit(t[0]);
    assert SkipBlanks(t) == t;
    AllDigits(t);
    assert t[..|t|] == t;
    JsonRoundTrip.DigitsBack(n);
    hide Digits, DigitsValue, LeadingDigits, SkipBlanks;
  }

  // ---- one file ----

  lemma FileNames()
    ensures SHA != TS && SHA != SIZE && SHA != PS && SHA != PT && SHA != ROOT && SHA != MACHINE
    ensures TS != SIZE && TS != PS && TS != PT && TS != ROOT && TS != MACHINE
    ensures SIZE != PS && SIZE != PT && SIZE != ROOT && SIZE != MACHINE
    ensures PS != PT && PS != ROOT && PS != MACHINE && PT != ROOT && PT != MACHINE && ROOT != MACHINE
  {
    assert TS[0] != PS[0] && TS[0] != PT[0] && PS[1] != PT[1] && SIZE[0] != ROOT[0];
    assert |SHA| == 3 && |TS| == |PS| == |PT| == 2 && |SIZE| == |ROOT| == 4 && |MACHINE| == 7;
  }

  /** A member written under a condition is found under it, and the others stay as they were. */
  lemma Added(m: map<Bytes, Value>, present: bool, k: Bytes, v: Value)
    ensures Member(Object(m + Optional(present, k, v)), k) == if present then v else Member(Object(m), k)
    ensures forall j :: j != k ==> Member(Object(m + Optional(present, k, v)), j) == Member(Object(m), j)
    ensures Has(Object(m + Optional(present, k, v)), k) <==> present || Has(Object(m), k)
    ensures forall j :: j != k ==> (Has(Object(m + Optional(present, k, v)), j) <==> Has(Object(m), j))
  {
  }

  function FileHead(e: FileEntry): map<Bytes, Value> {
    map[SHA := String(ShaToHex(e.sha)), TS := Number(e.timestamp), SIZE := Number(e.size)]
  }

  lemma FileHeadMembers(e: FileEntry, k: Bytes)
    ensures var v := Object(FileHead(e));
            && Has(v, SHA) && Member(v, SHA) == String(ShaToHex(e.sha))
            && Member(v, TS) == Number(e.timestamp) && Member(v, SIZE) == Number(e.size)
            && (k != SHA && k != TS && k != SIZE ==> Member(v, k) == Null && !Has(v, k))
  {
    hide SHA, TS, SIZE, PS, PT, ROOT, MACHINE, ShaToHex;
    FileNames();
  }

  lemma FileLayers(e: FileEntry)
    ensures FileValue(e) ==
            Object(FileHead(e) + Optional(e.persistState != 0, PS, Number(e.persistState))
                   + Optional(e.platforms != ALL_PLATFORMS, PT, Number(e.platforms))
                   + Optional(e.root != 0, ROOT, Number(e.root)) + Optional(e.machine != 0, MACHINE, Number(e.machine)))
  {
  }

  lemma FileMembers(e: FileEntry)
    ensures var v := FileValue(e);
            && Has(v, SHA) && Member(v, SHA) == String(ShaToHex(e.sha))
            && Member(v, TS) == Number(e.timestamp) && Member(v, SIZE) == Number(e.size)
            && Member(v, PS) == (if e.persistState != 0 then Number(e.persistState) else Null)
            && (Has(v, PT) <==> e.platforms != ALL_PLATFORMS) && (Has(v, PT) ==> Member(v, PT) == Number(e.platforms))
            && Member(v, ROOT) == (if e.root != 0 then Number(e.root) else Null)
            && Member(v, MACHINE) == (if e.machine != 0 then Number(e.machine) else Null)
  {
    hide *;
    FileNames();
    FileLayers(e);
    var h := FileHead(e);
    var p := h + Optional(e.persistState != 0, PS, Number(e.persistState));
    var t := p + Optional(e.platforms != ALL_PLATFORMS, PT, Number(e.platforms));
    var r := t + Optional(e.root != 0, ROOT, Number(e.root));
    FileHeadMembers(e, PS);
    FileHeadMembers(e, PT);
    FileHeadMembers(e, ROOT);
    FileHeadMembers(e, MACHINE);
    Added(h, e.persistState != 0, PS, Number(e.persistState));
    Added(p, e.platforms != ALL_PLATFORMS, PT, Number(e.platforms));
    Added(t, e.root != 0, ROOT, Number(e.root));
    Added(r, e.machine != 0, MACHINE, Number(e.machine));
  }

  /** An entry comes back, less a hash of more than 20 bytes. */
  lemma FileBack(e: FileEntry)
    ensures ReadFile(FileValue(e)) == Cut(e)
  {
    FileMembers(e);
    ShaRoundTrip(e.sha);
    hide FileValue, ShaToHex, HexToSha, SHA, TS, SIZE, PS, PT, ROOT, MACHINE, Has, Member;
  }

  // ---- all files ----

  ghost predicate Distinct(ks: seq<Bytes>) {
    forall i, j :: 0 <= i < j < |ks| ==> ks[i] != ks[j]
  }

  function ReadAll(m: map<Bytes, Value>, ks: seq<Bytes>): map<Bytes, FileEntry> {
    map k | k in m && k in ks && m[k].Object? :: ReadFile(m[k])
  }

  lemma ReadOneMore(m: map<Bytes, Value>, ks: seq<Bytes>, k: Bytes)
    requires k in m && m[k].Object?
    ensures ReadAll(m, ks + [k]) == ReadAll(m, ks)[k := ReadFile(m[k])]
  {
    hide ReadFile;
  }

  lemma SizeGrows(m: map<Bytes, FileEntry>, k: Bytes, e: FileEntry)
    requires k !in m
    ensures |m[k := e]| == |m| + 1
  {
    assert m[k := e].Keys == m.Keys + {k};
  }

  lemma {:induction false} TakenFiles(m: map<Bytes, Value>, ks: seq<Bytes>)
    requires Distinct(ks) && forall k :: k in ks ==> k in m && m[k].Object?
    ensures |ReadAll(m, ks)| == |ks|
    ensures TakeFiles(m, ks) == if |ks| <= MAX_FILES then Some(ReadAll(m, ks)) else None
  {
    if |ks| == 0 {
    } else {
      var before, k := ks[..|ks| - 1], ks[|ks| - 1];
      assert ks == before + [k];
      assert k !in before;
      TakenFiles(m, before);
      ReadOneMore(m, before, k);
      SizeGrows(ReadAll(m, before), k, ReadFile(m[k]));
    }
    hide ReadFile;
  }

  lemma {:induction false} DistinctCount(s: set<Bytes>, ks: seq<Bytes>)
    requires Distinct(ks) && forall k :: k in ks <==> k in s
    ensures |ks| == |s|
  {
    if |ks| == 0 {
      assert s == {};
    } else {
      var k := ks[|ks| - 1];
      var before := ks[..|ks| - 1];
      assert ks == before + [k];
      DistinctCount(s - {k}, before);
    }
  }

  lemma OrderAt(order: Order, m: map<Bytes, Value>)
    requires OrderOk(order)
    ensures Distinct(order([], m)) && (forall k :: k in order([], m) <==> k in m) && |order([], m)| == |m|
  {
    assert KeysInOrder(order([], m), m);
    DistinctCount(m.Keys, order([], m));
  }

  lemma AllRead(files: map<Bytes, FileEntry>, reserved: Bytes -> bool, ks: seq<Bytes>)
    requires forall k :: k in ks <==> k in FilesValue(files, reserved).members
    ensures ReadAll(FilesValue(files, reserved).members, ks) == Kept(files, reserved)
  {
    hide ReadFile, FileValue, Cut;
    forall k | k in files && !reserved(k)
      ensures FileValue(files[k]).Object? && ReadFile(FileValue(files[k])) == Cut(files[k])
    {
      FileBack(files[k]);
      FileIsObject(files[k]);
    }
  }

  lemma FileIsObject(e: FileEntry)
    ensures FileValue(e).Object?
  {
  }

  lemma FilesObject(files: map<Bytes, FileEntry>, reserved: Bytes -> bool)
    ensures var v := FilesValue(files, reserved);
            && v.Object? && v.members.Keys == Kept(files, reserved).Keys && |v.members| == |Kept(files, reserved)|
            && (forall k :: k in v.members ==>
                  v.members[k].Object? && k in files && v.members[k] == FileValue(files[k]))
  {
    var v := FilesValue(files, reserved);
    assert v.members.Keys == Kept(files, reserved).Keys;
    assert |v.members| == |v.members.Keys|;
    forall k | k in v.members
      ensures v.members[k].Object?
    {
      FileIsObject(files[k]);
    }
    hide FileValue;
  }

  lemma FilesBack(files: map<Bytes, FileEntry>, reserved: Bytes -> bool, order: Order)
    requires OrderOk(order)
    ensures ReadFiles(FilesValue(files, reserved), order) ==
            if |Kept(files, reserved)| <= MAX_FILES then Some(Kept(files, reserved)) else None
  {
    hide *;
    FilesObject(files, reserved);
    var m := FilesValue(files, reserved).members;
    OrderAt(order, m);
    TakenFiles(m, order([], m));
    AllRead(files, reserved, order([], m));
    FilesTaken(files, reserved, order);
  }

  lemma FilesTaken(files: map<Bytes, FileEntry>, reserved: Bytes -> bool, order: Order)
    ensures var v := FilesValue(files, reserved);
            ReadFiles(v, order) == TakeFiles(v.members, order([], v.members))
  {
  }

  // ---- quota and session ----

  lemma QuotaBack(q: Quota)
    ensures ReadQuota(QuotaValue(q)) == q
  {
    assert BYTES != FILES && BYTES != AT && BYTES != BUILD && FILES != AT && FILES != BUILD && AT != BUILD by {
      assert BYTES[0] != FILES[0] && BYTES[1] != BUILD[1] && FILES[0] != BUILD[0];
      assert |BYTES| == |FILES| == |BUILD| == 5 && |AT| == 2;
    }
    hide BYTES, FILES, AT, BUILD;
  }

  lemma SessionBack(s: Session)
    ensures ReadSession(SessionValue(s)) == s
  {
    assert CLIENT_ID != MACHINE && CLIENT_ID != TIME && CLIENT_ID != OP && MACHINE != TIME && MACHINE != OP
           && TIME != OP by {
      assert |CLIENT_ID| == 9 && |MACHINE| == 7 && |TIME| == 4 && |OP| == 2;
    }
    ClientIdBack(s.clientId);
    hide CLIENT_ID, MACHINE, TIME, OP, Digits, ParseU64;
  }

  // ---- the whole state ----

  lemma RootNames()
    ensures V != CN && V != BUILD_ID && V != QUOTA && V != SESSION && V != MACHINES && V != FILES
    ensures CN != BUILD_ID && CN != QUOTA && CN != SESSION && CN != MACHINES && CN != FILES
    ensures BUILD_ID != QUOTA && BUILD_ID != SESSION && BUILD_ID != MACHINES && BUILD_ID != FILES
    ensures QUOTA != SESSION && QUOTA != MACHINES && QUOTA != FILES && SESSION != MACHINES && SESSION != FILES
            && MACHINES != FILES
  {
    assert BUILD_ID[0] != MACHINES[0] && QUOTA[0] != FILES[0];
    assert |V| == 1 && |CN| == 2 && |BUILD_ID| == |MACHINES| == 8 && |QUOTA| == |FILES| == 5 && |SESSION| == 7;
  }

  /** The members that are always there. */
  function Head(s: State): map<Bytes, Value> {
    map[V := Number(s.version), CN := Number(s.cn), BUILD_ID := Number(s.buildId)]
  }

  lemma HeadMembers(s: State, k: Bytes)
    ensures Has(Object(Head(s)), V) && Member(Object(Head(s)), V) == Number(s.version)
    ensures Member(Object(Head(s)), CN) == Number(s.cn) && Member(Object(Head(s)), BUILD_ID) == Number(s.buildId)
    ensures k != V && k != CN && k != BUILD_ID ==> Member(Object(Head(s)), k) == Null
  {
    hide V, CN, BUILD_ID, QUOTA, SESSION, MACHINES, FILES;
    RootNames();
  }

  lemma Layers(s: State, reserved: Bytes -> bool)
    ensures StateValue(s, reserved) ==
            Object(Head(s) + Optional(HasQuota(s.quota), QUOTA, QuotaValue(s.quota))
                   + Optional(ActiveSession(s.session), SESSION, SessionValue(s.session))
                   + Optional(s.machines != [], MACHINES, MachinesValue(s.machines))
                   + Optional(true, FILES, FilesValue(s.files, reserved)))
  {
  }

  lemma RootMembers(s: State, reserved: Bytes -> bool)
    ensures var v := StateValue(s, reserved);
            && v.Object? && Has(v, V) && Member(v, V) == Number(s.version)
            && Member(v, CN) == Number(s.cn) && Member(v, BUILD_ID) == Number(s.buildId)
            && Member(v, QUOTA) == (if HasQuota(s.quota) then QuotaValue(s.quota) else Null)
            && Member(v, SESSION) == (if ActiveSession(s.session) then SessionValue(s.session) else Null)
            && Member(v, MACHINES) == (if s.machines != [] then MachinesValue(s.machines) else Null)
            && Member(v, FILES) == FilesValue(s.files, reserved)
  {
    hide *;
    RootNames();
    Layers(s, reserved);
    var h := Head(s);
    var q := h + Optional(HasQuota(s.quota), QUOTA, QuotaValue(s.quota));
    var t := q + Optional(ActiveSession(s.session), SESSION, SessionValue(s.session));
    var m := t + Optional(s.machines != [], MACHINES, MachinesValue(s.machines));
    HeadMembers(s, QUOTA);
    HeadMembers(s, SESSION);
    HeadMembers(s, MACHINES);
    Added(h, HasQuota(s.quota), QUOTA, QuotaValue(s.quota));
    Added(q, ActiveSession(s.session), SESSION, SessionValue(s.session));
    Added(t, s.machines != [], MACHINES, MachinesValue(s.machines));
    Added(m, true, FILES, FilesValue(s.files, reserved));
  }

  lemma RootKeys(s: State, reserved: Bytes -> bool, k: Bytes)
    requires k in StateValue(s, reserved).members
    ensures k == V || k == CN || k == BUILD_ID || k == QUOTA || k == SESSION || k == MACHINES || k == FILES
  {
    hide V, CN, BUILD_ID, QUOTA, SESSION, MACHINES, FILES, QuotaValue, SessionValue, MachinesValue, FilesValue,
         HasQuota, ActiveSession;
  }

  lemma MachinesBack(names: seq<Bytes>)
    ensures ReadMachines(MachinesValue(names)) == names
  {
  }

  /** What is read when every member is known. */
  lemma ReadKnown(v: Value, order: Order, s: State)
    requires v.Object? && Has(v, V) && Member(v, V) == Number(s.version)
    requires Member(v, CN) == Number(s.cn) && Member(v, BUILD_ID) == Number(s.buildId)
    requires ReadQuota(Member(v, QUOTA)) == s.quota && ReadSession(Member(v, SESSION)) == s.session
    requires ReadMachines(Member(v, MACHINES)) == s.machines
    ensures ReadState(v, order) ==
            match ReadFiles(Member(v, FILES), order)
            case None => None
            case Some(files) => Some(s.(files := files))
  {
    hide Has, Member, ReadFiles, ReadQuota, ReadSession, ReadMachines, V, CN, BUILD_ID, QUOTA, SESSION, MACHINES, FILES;
  }

  /** Reading the value of a state gives the state, or refuses it when it has too many files. */
  lemma StateBack(s: State, reserved: Bytes -> bool, order: Order)
    requires OrderOk(order)
    ensures ReadState(StateValue(s, reserved), order) ==
            if |Kept(s.files, reserved)| <= MAX_FILES then Some(Normal(s, reserved)) else None
  {
    FilesBack(s.files, reserved, order);
    NormalFiles(s, reserved);
    hide *;
    RootMembers(s, reserved);
    QuotaBack(s.quota);
    SessionBack(s.session);
    MachinesBack(s.machines);
    NothingBack();
    ReadKnown(StateValue(s, reserved), order, Normal(s, reserved));
  }

  lemma NormalFiles(s: State, reserved: Bytes -> bool)
    ensures var n := Normal(s, reserved);
            && n.files == Kept(s.files, reserved) && n.(files := Kept(s.files, reserved)) == n
            && n.version == s.version && n.cn == s.cn && n.buildId == s.buildId && n.machines == s.machines
            && n.quota == (if HasQuota(s.quota) then s.quota else NO_QUOTA)
            && n.session == (if ActiveSession(s.session) then s.session else NO_SESSION)
  {
  }

  lemma NothingBack()
    ensures ReadQuota(Null) == NO_QUOTA && ReadSession(Null) == NO_SESSION && ReadMachines(Null) == []
  {
  }

  // ---- the value can be printed and read ----

  ghost predicate Plain(v: Value, h: nat) {
    Exact(v) && DepthAtMost(v, h)
  }

  /** Objects of numbers and text are printed in full. */
  lemma FlatPlain(v: Value, h: nat)
    requires v.Object? && h > 0
    requires forall k ::
               k in v.members ==> v.members[k].String? || (v.members[k].Number? && -EXACT <= v.members[k].n <= EXACT)
    ensures Plain(v, h)
  {
  }

  lemma FilePlain(e: FileEntry)
    requires SmallFile(e)
    ensures Plain(FileValue(e), 1)
  {
    hide SHA, TS, SIZE, PS, PT, ROOT, MACHINE, ShaToHex, Plain;
    FlatPlain(FileValue(e), 1);
  }

  lemma FilesPlain(files: map<Bytes, FileEntry>, reserved: Bytes -> bool)
    requires forall name :: name in files && !reserved(name) ==> SmallFile(files[name])
    ensures Plain(FilesValue(files, reserved), 2)
  {
    forall name | name in files && !reserved(name)
      ensures Plain(FileValue(files[name]), 1)
    {
      FilePlain(files[name]);
    }
    hide FileValue;
  }

  lemma {:induction false} Deeper(v: Value, h: nat, g: nat)
    requires DepthAtMost(v, h) && h <= g
    ensures DepthAtMost(v, g)
    decreases v
  {
    match v
    case Array(items) =>
      forall i | 0 <= i < |items|
        ensures DepthAtMost(items[i], g - 1)
      {
        Deeper(items[i], h - 1, g - 1);
      }
    case Object(m) =>
      forall k | k in m
        ensures DepthAtMost(m[k], g - 1)
      {
        Deeper(m[k], h - 1, g - 1);
      }
    case _ =>
  }

  lemma QuotaPlain(q: Quota)
    requires q.quotaBytes <= EXACT && q.fetchedAt <= EXACT && q.buildId <= EXACT
    ensures Plain(QuotaValue(q), 2)
  {
    hide BYTES, FILES, AT, BUILD, Plain;
    FlatPlain(QuotaValue(q), 2);
  }

  lemma SessionPlain(s: Session)
    requires s.time <= EXACT
    ensures Plain(SessionValue(s), 2)
  {
    hide CLIENT_ID, MACHINE, TIME, OP, Digits, Plain;
    FlatPlain(SessionValue(s), 2);
  }

  lemma MachinesPlain(names: seq<Bytes>)
    ensures Plain(MachinesValue(names), 2)
  {
  }

  lemma PlainObject(v: Value, h: nat)
    requires v.Object? && h > 0 && forall k :: k in v.members ==> Plain(v.members[k], h - 1)
    ensures Plain(v, h)
  {
  }

  lemma MemberPlain(s: State, reserved: Bytes -> bool, k: Bytes)
    requires Small(s, reserved) && Has(StateValue(s, reserved), k)
    ensures Plain(Member(StateValue(s, reserved), k), 2)
  {
    QuotaPlain(s.quota);
    SessionPlain(s.session);
    FilesPlain(s.files, reserved);
    hide StateValue, QuotaValue, SessionValue, MachinesValue, FilesValue, V, CN, BUILD_ID, QUOTA, SESSION, MACHINES,
         FILES;
    hide Small, Plain, Has, Member, HasQuota, ActiveSession;
    RootMembers(s, reserved);
    MachinesPlain(s.machines);
    RootNumbers(s, reserved);
    HasKey(s, reserved, k);
    RootKeys(s, reserved, k);
    FirstMember(s, reserved);
  }

  lemma HasKey(s: State, reserved: Bytes -> bool, k: Bytes)
    requires Has(StateValue(s, reserved), k)
    ensures StateValue(s, reserved).Object? && k in StateValue(s, reserved).members
  {
    hide StateValue;
  }

  lemma FirstMember(s: State, reserved: Bytes -> bool)
    ensures Member(StateValue(s, reserved), V) == Number(s.version)
  {
    RootMembers(s, reserved);
    hide StateValue;
  }

  lemma StatePlain(s: State, reserved: Bytes -> bool)
    requires Small(s, reserved)
    ensures Plain(StateValue(s, reserved), 3)
  {
    hide StateValue, Small, Plain;
    var v := StateValue(s, reserved);
    RootMembers(s, reserved);
    forall k | k in v.members
      ensures Plain(v.members[k], 2)
    {
      MemberPlain(s, reserved, k);
    }
    PlainObject(v, 3);
  }

  lemma RootNumbers(s: State, reserved: Bytes -> bool)
    requires Small(s, reserved)
    ensures Plain(Number(s.version), 2) && Plain(Number(s.cn), 2) && Plain(Number(s.buildId), 2) && Plain(Null, 2)
  {
  }

  /** The text is never empty, so reading it never stops at the empty check. */
  lemma TextNotEmpty(s: State, reserved: Bytes -> bool, order: Order)
    ensures Serialize(s, reserved, order) != []
  {
    RootMembers(s, reserved);
    hide StateValue;
  }

  /** What was written reads back as the state without what the format leaves out; it is refused exactly when more
      than 100000 files are left. The maps may iterate in any order on either side. */
  lemma RoundTrip(s: State, reserved: Bytes -> bool, printed: Order, read: Order)
    requires OrderOk(printed) && OrderOk(read) && Small(s, reserved)
    ensures Deserialize(Serialize(s, reserved, printed), read) ==
            if |Kept(s.files, reserved)| <= MAX_FILES then Some(Normal(s, reserved)) else None
  {
    StatePlain(s, reserved);
    Deeper(StateValue(s, reserved), 3, MAX_DEPTH);
    JsonRoundTrip.RoundTrip(StateValue(s, reserved), printed);
    TextNotEmpty(s, reserved, printed);
    StateBack(s, reserved, read);
    hide OrderOk, StateValue, Stringify, Parse, ReadState, Small, Kept, Normal, DepthAtMost;
  }

  /** Nothing is left out of these states. */
  ghost predicate Complete(s: State, reserved: Bytes -> bool) {
    && (forall name :: name in s.files ==> !reserved(name) && |s.files[name].sha| <= 20)
    && (ActiveSession(s.session) || s.session == NO_SESSION)
    && (HasQuota(s.quota) || s.quota == NO_QUOTA)
  }

  lemma CompleteNormal(s: State, reserved: Bytes -> bool)
    ensures Normal(s, reserved) == s <==> Complete(s, reserved)
    ensures Normal(Normal(s, reserved), reserved) == Normal(s, reserved)
  {
    var kept := Kept(s.files, reserved);
    if Complete(s, reserved) {
      assert kept == s.files;
    }
    if kept == s.files {
      forall name | name in s.files
        ensures !reserved(name) && |s.files[name].sha| <= 20
      {
        assert name in kept;
        assert kept[name] == Cut(s.files[name]);
      }
    }
    assert Kept(kept, reserved) == kept;
  }

  /** A state comes back unchanged exactly when nothing is left out and it has at most 100000 files. */
  lemma ComesBack(s: State, reserved: Bytes -> bool, printed: Order, read: Order)
    requires OrderOk(printed) && OrderOk(read) && Small(s, reserved)
    ensures Deserialize(Serialize(s, reserved, printed), read) == Some(s) <==>
              Complete(s, reserved) && |s.files| <= MAX_FILES
  {
    RoundTrip(s, reserved, printed, read);
    CompleteNormal(s, reserved);
    assert Normal(s, reserved).files == Kept(s.files, reserved);
    hide OrderOk, Deserialize, Serialize, Kept, Complete, Small;
  }
}
