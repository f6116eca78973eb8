/** app_state.cpp's codec as it runs: maps, arrays and strings filled step by step. */
module AppState {
  import opened Options
  import opened Json
  import JsonParser
  import opened StateCodec

  method WriteSha(sha: Bytes) returns (hex: Bytes)
    ensures hex == ShaToHex(sha)
  {
    hex := [];
    var i := 0;
    while i < |sha|
      invariant i <= |sha| && hex + ShaToHex(sha[i..]) == ShaToHex(sha)
    {
      var pair := [LowerHex(sha[i] / 16), LowerHex(sha[i] % 16)];
      assert sha[i..][1..] == sha[i + 1..];
      assert hex + (pair + ShaToHex(sha[i + 1..])) == (hex + pair) + ShaToHex(sha[i + 1..]);
      hex := hex + pair;
      i := i + 1;
    }
    assert hex + [] == hex;
  }

  method ReadSha(hex: Bytes) returns (sha: Bytes)
    ensures sha == HexToSha(hex)
  {
    hide ScanByte;
    sha := [];
    if |hex| > MAX_SHA_HEX {
      return;
    }
    var i := 0;
    while i + 1 < |hex|
      invariant i <= |hex| && sha + HexPairs(hex[i..]) == HexPairs(hex)
    {
      assert hex[i..][2..] == hex[i + 2..];
      ghost var before := sha;
      match ScanByte(hex[i..]) {
        case Some(v) =>
          assert before + ([v] + HexPairs(hex[i + 2..])) == (before + [v]) + HexPairs(hex[i + 2..]);
          sha := sha + [v];
        case None =>
          assert [] + HexPairs(hex[i + 2..]) == HexPairs(hex[i + 2..]);
      }
      i := i + 2;
    }
    assert HexPairs(hex[i..]) == [];
    assert sha + [] == sha;
  }

  /** Setting a member, or leaving it out. */
  lemma SetMember(m: map<Bytes, Value>, k: Bytes, v: Value)
    ensures m + Optional(true, k, v) == m[k := v] && m + Optional(false, k, v) == m
  {
  }

  method WriteFile(e: FileEntry) returns (v: Value)
    ensures v == FileValue(e)
  {
    hide SHA, TS, SIZE, PS, PT, ROOT, MACHINE, ShaToHex, Optional;
    var hex := WriteSha(e.sha);
    var m: map<Bytes, Value> := map[SHA := String(hex), TS := Number(e.timestamp), SIZE := Number(e.size)];
    SetMember(m, PS, Number(e.persistState));
    if e.persistState != 0 {
      m := m[PS := Number(e.persistState)];
    }
    SetMember(m, PT, Number(e.platforms));
    if e.platforms != ALL_PLATFORMS {
      m := m[PT := Number(e.platforms)];
    }
    SetMember(m, ROOT, Number(e.root));
    if e.root != 0 {
      m := m[ROOT := Number(e.root)];
    }
    SetMember(m, MACHINE, Number(e.machine));
    if e.machine != 0 {
      m := m[MACHINE := Number(e.machine)];
    }
    v := Object(m);
  }

  method WriteMachines(names: seq<Bytes>) returns (v: Value)
    ensures v == MachinesValue(names)
  {
    var items: seq<Value> := [];
    for i := 0 to |names|
      invariant |items| == i && forall k :: 0 <= k < i ==> items[k] == String(names[k])
    {
      items := items + [String(names[i])];
    }
    v := Array(items);
  }

  method WriteFiles(files: map<Bytes, FileEntry>, reserved: Bytes -> bool) returns (v: Value)
    ensures v == FilesValue(files, reserved)
  {
    hide FileValue;
    var m: map<Bytes, Value> := map[];
    var rest := files.Keys;
    while rest != {}
      invariant rest <= files.Keys
      invariant forall k :: k in m <==> k in files && k !in rest && !reserved(k)
      invariant forall k :: k in m ==> m[k] == FileValue(files[k])
      decreases |rest|
    {
      var name :| name in rest;
      rest := rest - {name};
      if !reserved(name) {
        var obj := WriteFile(files[name]);
        m := m[name := obj];
      }
    }
    v := Object(m);
  }

  method SerializeState(s: State, reserved: Bytes -> bool, order: Order) returns (json: Bytes)
    ensures json == Serialize(s, reserved, order)
  {
    hide Optional, QuotaValue, SessionValue, MachinesValue, FilesValue, HasQuota, ActiveSession, Digits, StringifyAt;
    hide V, CN, BUILD_ID, QUOTA, SESSION, MACHINES, FILES;
    var root: map<Bytes, Value> := map[V := Number(s.version), CN := Number(s.cn), BUILD_ID := Number(s.buildId)];
    SetMember(root, QUOTA, QuotaValue(s.quota));
    if HasQuota(s.quota) {
      root := root[QUOTA := QuotaValue(s.quota)];
    }
    SetMember(root, SESSION, SessionValue(s.session));
    if ActiveSession(s.session) {
      root := root[SESSION := SessionValue(s.session)];
    }
    SetMember(root, MACHINES, MachinesValue(s.machines));
    if s.machines != [] {
      var names := WriteMachines(s.machines);
      root := root[MACHINES := names];
    }
    SetMember(root, FILES, FilesValue(s.files, reserved));
    var files := WriteFiles(s.files, reserved);
    root := root[FILES := files];
    json := JsonParser.PrintInto(Object(root), [], [], order);
    assert [] + Stringify(Object(root), order) == Stringify(Object(root), order);
  }

  /** The files of the object, or a refusal when there are too many. */
  method ReadEntries(m: map<Bytes, Value>, order: Order) returns (ok: bool, files: map<Bytes, FileEntry>)
    ensures TakeFiles(m, order([], m)) == if ok then Some(files) else None
    ensures !ok ==> files == map[]
  {
    hide ReadFile;
    var ks := order([], m);
    files := map[];
    for i := 0 to |ks|
      invariant TakeFiles(m, ks[..i]) == Some(files)
    {
      assert ks[..i + 1][..i] == ks[..i];
      var name := ks[i];
      if |files| >= MAX_FILES {
        Refused(m, ks, i + 1);
        return false, map[];
      }
      if name in m && m[name].Object? {
        var entry := ReadOne(m[name]);
        files := files[name := entry];
      }
    }
    assert ks[..|ks|] == ks;
    ok := true;
  }

  lemma {:induction false} Refused(m: map<Bytes, Value>, ks: seq<Bytes>, i: nat)
    requires i <= |ks| && TakeFiles(m, ks[..i]) == None
    ensures TakeFiles(m, ks) == None
    decreases |ks| - i
  {
    if i < |ks| {
      assert ks[..i + 1][..i] == ks[..i];
      Refused(m, ks, i + 1);
    } else {
      assert ks[..i] == ks;
    }
    hide ReadFile;
  }

  method ReadOne(v: Value) returns (e: FileEntry)
    ensures e == ReadFile(v)
  {
    hide SHA, TS, SIZE, PS, PT, ROOT, MACHINE, HexToSha;
    e := FileEntry([], 0, 0, 0, ALL_PLATFORMS, 0, 0);
    if Has(v, SHA) {
      var sha := ReadSha(Text(Member(v, SHA)));
      e := e.(sha := sha);
    }
    if Has(v, TS) {
      e := e.(timestamp := U64(Member(v, TS)));
    }
    if Has(v, SIZE) {
      e := e.(size := U64(Member(v, SIZE)));
    }
    if Has(v, PS) {
      e := e.(persistState := U32(Member(v, PS)));
    }
    if Has(v, PT) {
      e := e.(platforms := U32(Member(v, PT)));
    }
    if Has(v, ROOT) {
      e := e.(root := U32(Member(v, ROOT)));
    }
    if Has(v, MACHINE) {
      e := e.(machine := U32(Member(v, MACHINE)));
    }
  }

  /** Whether the text is a state, and the state; without files when there were too many of them. */
  method DeserializeState(json: Bytes, order: Order) returns (ok: bool, s: State)
    ensures Deserialize(json, order) == if ok then Some(s) else None
    ensures !ok ==> s.files == map[]
  {
    hide Parse, ReadQuota, ReadSession, ReadMachines, TakeFiles, V, CN, BUILD_ID, QUOTA, SESSION, MACHINES, FILES;
    s := NEW_STATE;
    if json == [] {
      return false, s;
    }
    var root := JsonParser.ParseText(json);
    if !root.Object? {
      return false, s;
    }
    if Has(root, V) {
      s := s.(version := U32(Member(root, V)));
    }
    if Has(root, CN) {
      s := s.(cn := U64(Member(root, CN)));
    }
    if Has(root, BUILD_ID) {
      s := s.(buildId := U64(Member(root, BUILD_ID)));
    }
    s := s.(quota := ReadQuota(Member(root, QUOTA)), session := ReadSession(Member(root, SESSION)),
            machines := ReadMachines(Member(root, MACHINES)));
    ok := true;
    if Member(root, FILES).Object? {
      var files;
      ok, files := ReadEntries(Member(root, FILES).members, order);
      s := s.(files := files);
    }
  }
}
