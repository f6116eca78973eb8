/** The per-app cloud state and its JSON form: SerializeState, DeserializeState and the hex codec of app_state.cpp. */
module StateCodec {
  import opened Options
  import opened Bits
  import opened Json

  const U32_MAX: nat := 0xFFFF_FFFF
  const U64_SIZE: nat := 0x1_0000_0000_0000_0000
  const ALL_PLATFORMS: u32 := 0xFFFF_FFFF
  const MAX_FILES: nat := 100000
  const MAX_SHA_HEX: nat := 40

  type u64 = x: int | 0 <= x < 0x1_0000_0000_0000_0000

  datatype FileEntry = FileEntry(sha: Bytes, timestamp: u64, size: u64, persistState: u32, platforms: u32, root: u32,
                                 machine: u32)

  datatype Session = Session(clientId: u64, machine: Bytes, time: u64, operation: Bytes)

  datatype Quota = Quota(quotaBytes: u64, maxFiles: u32, fetchedAt: u64, buildId: u64)

  datatype State = State(version: u32, cn: u64, buildId: u64, quota: Quota, session: Session, machines: seq<Bytes>,
                         files: map<Bytes, FileEntry>)

  const NO_SESSION: Session := Session(0, [], 0, [])
  const NO_QUOTA: Quota := Quota(0, 0, 0, 0)
  const NEW_STATE: State := State(2, 0, 0, NO_QUOTA, NO_SESSION, [], map[])

  predicate ActiveSession(s: Session) {
    s.clientId != 0 && s.operation != []
  }

  predicate HasQuota(q: Quota) {
    q.fetchedAt != 0 || q.quotaBytes != 0 || q.maxFiles != 0
  }

  // ---- the member names ----

  const V: Bytes := [118]
  const CN: Bytes := [99, 110]
  const BUILD_ID: Bytes := [98, 117, 105, 108, 100, 95, 105, 100]
  const QUOTA: Bytes := [113, 117, 111, 116, 97]
  const SESSION: Bytes := [115, 101, 115, 115, 105, 111, 110]
  const MACHINES: Bytes := [109, 97, 99, 104, 105, 110, 101, 115]
  const FILES: Bytes := [102, 105, 108, 101, 115]
  const BYTES: Bytes := [98, 121, 116, 101, 115]
  const AT: Bytes := [97, 116]
  const BUILD: Bytes := [98, 117, 105, 108, 100]
  const CLIENT_ID: Bytes := [99, 108, 105, 101, 110, 116, 95, 105, 100]
  const MACHINE: Bytes := [109, 97, 99, 104, 105, 110, 101]
  const TIME: Bytes := [116, 105, 109, 101]
  const OP: Bytes := [111, 112]
  const SHA: Bytes := [115, 104, 97]
  const TS: Bytes := [116, 115]
  const SIZE: Bytes := [115, 105, 122, 101]
  const PS: Bytes := [112, 115]
  const PT: Bytes := [112, 116]
  const ROOT: Bytes := [114, 111, 111, 116]

  // ---- hex ----

  function LowerHex(n: nat): byte
    requires n < 16
  {
    if n < 10 then 48 + n else 87 + n
  }

  function ShaToHex(sha: Bytes): (r: Bytes)
    ensures |r| == 2 * |sha|
  {
    if |sha| == 0 then [] else [LowerHex(sha[0] / 16), LowerHex(sha[0] % 16)] + ShaToHex(sha[1..])
  }

  /** sscanf with "%02x": blanks before the field are skipped, a sign counts towards its two characters,
      one digit is enough and a bare 0x is none. */
  function ScanByte(text: Bytes): Option<byte> {
    var t := SkipBlanks(text);
    var a, b := if |t| > 0 then HexDigit(t[0]) else -1, if |t| > 1 then HexDigit(t[1]) else -1;
    if a >= 0 then
      if b >= 0 then Some(16 * a + b)
      else if a == 0 && |t| > 1 && (t[1] == 120 || t[1] == 88) then None
      else Some(a)
    else if b >= 0 && t[0] == MINUS then Some((256 - b) % 256)
    else if b >= 0 && t[0] == PLUS then Some(b)
    else None
  }

  /** A scan at every second position that has a character after it. */
  function HexPairs(hex: Bytes): Bytes {
    if |hex| < 2 then []
    else
      (match ScanByte(hex)
       case Some(v) => [v]
       case None => []) + HexPairs(hex[2..])
  }

  function HexToSha(hex: Bytes): Bytes {
    if |hex| > MAX_SHA_HEX then [] else HexPairs(hex)
  }

  lemma {:induction false} HexPairsBack(sha: Bytes)
    ensures HexPairs(ShaToHex(sha)) == sha
  {
    if |sha| == 0 {
    } else {
      var h := ShaToHex(sha);
      assert h[2..] == ShaToHex(sha[1..]);
      HexPairsBack(sha[1..]);
      ByteHex(sha[0], h);
    }
  }

  lemma ByteHex(v: byte, h: Bytes)
    requires |h| >= 2 && h[0] == LowerHex(v / 16) && h[1] == LowerHex(v % 16)
    ensures ScanByte(h) == Some(v)
  {
    assert SkipBlanks(h) == h;
  }

  /** Hashes of up to 20 bytes survive the hex form, longer ones are lost. */
  lemma ShaRoundTrip(sha: Bytes)
    ensures HexToSha(ShaToHex(sha)) == if |sha| <= 20 then sha else []
  {
    HexPairsBack(sha);
  }

  // ---- writing ----

  /** A member that is written only under a condition. */
  function Optional(present: bool, k: Bytes, v: Value): map<Bytes, Value> {
    if present then map[k := v] else map[]
  }

  function FileValue(e: FileEntry): Value {
    Object(map[SHA := String(ShaToHex(e.sha)), TS := Number(e.timestamp), SIZE := Number(e.size)]
           + Optional(e.persistState != 0, PS, Number(e.persistState))
           + Optional(e.platforms != ALL_PLATFORMS, PT, Number(e.platforms))
           + Optional(e.root != 0, ROOT, Number(e.root))
           + Optional(e.machine != 0, MACHINE, Number(e.machine)))
  }

  function QuotaValue(q: Quota): Value {
    Object(map[BYTES := Number(q.quotaBytes), FILES := Number(q.maxFiles), AT := Number(q.fetchedAt),
               BUILD := Number(q.buildId)])
  }

  function SessionValue(s: Session): Value {
    Object(map[CLIENT_ID := String(Digits(s.clientId)), MACHINE := String(s.machine), TIME := Number(s.time),
               OP := String(s.operation)])
  }

  function MachinesValue(names: seq<Bytes>): Value {
    Array(seq(|names|, i requires 0 <= i < |names| => String(names[i])))
  }

  function FilesValue(files: map<Bytes, FileEntry>, reserved: Bytes -> bool): Value {
    Object(map name | name in files && !reserved(name) :: FileValue(files[name]))
  }

  function StateValue(s: State, reserved: Bytes -> bool): Value {
    Object(map[V := Number(s.version), CN := Number(s.cn), BUILD_ID := Number(s.buildId)]
           + Optional(HasQuota(s.quota), QUOTA, QuotaValue(s.quota))
           + Optional(ActiveSession(s.session), SESSION, SessionValue(s.session))
           + Optional(s.machines != [], MACHINES, MachinesValue(s.machines))
           + Optional(true, FILES, FilesValue(s.files, reserved)))
  }

  function Serialize(s: State, reserved: Bytes -> bool, order: Order): Bytes {
    Stringify(StateValue(s, reserved), order)
  }

  // ---- reading ----

  predicate Has(v: Value, k: Bytes) {
    v.Object? && k in v.members
  }

  function Member(v: Value, k: Bytes): Value {
    if Has(v, k) then v.members[k] else Null
  }

  /** integer(): 0 for anything that is not a number. */
  function Integer(v: Value): int {
    if v.Number? then v.n else 0
  }

  function Text(v: Value): Bytes {
    if v.String? then v.text else []
  }

  function U64(v: Value): u64 {
    Integer(v) % U64_SIZE
  }

  function U32(v: Value): u32 {
    Integer(v) % (U32_MAX + 1)
  }

  /** strtoull in base 10: leading digits, saturating. */
  function LeadingDigits(s: Bytes): (p: nat)
    ensures p <= |s| && forall i :: 0 <= i < p ==> IsDigit(s[i])
  {
    if |s| > 0 && IsDigit(s[0]) then LeadingDigits(s[1..]) + 1 else 0
  }

  function ParseU64(s: Bytes): u64 {
    var t := SkipBlanks(s);
    var u := if |t| > 0 && (t[0] == MINUS || t[0] == PLUS) then t[1..] else t;
    var n := DigitsValue(u[..LeadingDigits(u)]);
    if n >= U64_SIZE then U64_SIZE - 1
    else if |t| > 0 && t[0] == MINUS then (U64_SIZE - n) % U64_SIZE
    else n
  }

  function ReadFile(v: Value): FileEntry {
    FileEntry(if Has(v, SHA) then HexToSha(Text(Member(v, SHA))) else [],
              U64(Member(v, TS)), U64(Member(v, SIZE)), U32(Member(v, PS)),
              if Has(v, PT) then U32(Member(v, PT)) else ALL_PLATFORMS,
              U32(Member(v, ROOT)), U32(Member(v, MACHINE)))
  }

  function ReadQuota(v: Value): Quota {
    if v.Object?
       then Quota(U64(Member(v, BYTES)), U32(Member(v, FILES)), U64(Member(v, AT)), U64(Member(v, BUILD))) else NO_QUOTA
  }

  function ReadSession(v: Value): Session {
    if v.Object? then
      var id := Member(v, CLIENT_ID);
      Session(if id.String? then ParseU64(id.text) else U64(id), Text(Member(v, MACHINE)), U64(Member(v, TIME)),
              Text(Member(v, OP)))
    else NO_SESSION
  }

  function ReadMachines(v: Value): seq<Bytes> {
    if v.Array? then seq(|v.items|, i requires 0 <= i < |v.items| => Text(v.items[i])) else []
  }

  /** The entries under the given names, in that order: what is not an object is passed over, and a name
      that comes when MAX_FILES entries are there already is refused. */
  function TakeFiles(m: map<Bytes, Value>, ks: seq<Bytes>): Option<map<Bytes, FileEntry>> {
    if |ks| == 0 then Some(map[])
    else
      var k := ks[|ks| - 1];
      match TakeFiles(m, ks[..|ks| - 1])
      case None => None
      case Some(files) =>
        if |files| >= MAX_FILES then None
        else Some(if k in m && m[k].Object? then files[k := ReadFile(m[k])] else files)
  }

  function ReadFiles(v: Value, order: Order): Option<map<Bytes, FileEntry>> {
    if v.Object? then TakeFiles(v.members, order([], v.members)) else Some(map[])
  }

  /** The state an object stands for; too many files are refused. */
  function ReadState(root: Value, order: Order): Option<State> {
    if !root.Object? then None
    else
      match ReadFiles(Member(root, FILES), order)
      case None => None
      case Some(files) =>
        Some(State(if Has(root, V) then U32(Member(root, V)) else 2, U64(Member(root, CN)), U64(Member(root, BUILD_ID)),
                   ReadQuota(Member(root, QUOTA)), ReadSession(Member(root, SESSION)),
                   ReadMachines(Member(root, MACHINES)), files))
  }

  function Deserialize(json: Bytes, order: Order): Option<State> {
    if json == [] then None else ReadState(Parse(json), order)
  }
}
