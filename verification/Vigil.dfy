/** redis/vigil_repository.go: a human operator's seat on a session, kept as one Redis key whose value
    is the operator and the second the seat was taken. */
module Vigil {
  import opened Wrappers
  import opened TtlStore
  import opened RedisServer

  const NANOS := 1_000_000_000

  // time.Unix() of a clock reading in nanoseconds.
  function Unix(now: Time): int {
    now / NANOS
  }

  predicate Int64(n: int) {
    -0x8000_0000_0000_0000 <= n < 0x8000_0000_0000_0000
  }

  // ---- Decimal numbers ----

  function DigitChar(d: int): char
    requires 0 <= d <= 9
  {
    '0' + d as char
  }

  function PrintNat(n: nat): string {
    if n < 10 then [DigitChar(n)] else PrintNat(n / 10) + [DigitChar(n % 10)]
  }

  function Print(n: int): string {
    if n < 0 then "-" + PrintNat(-n) else PrintNat(n)
  }

  function ParseNat(s: string): Option<nat> {
    if s == "" then None
    else
      var c := s[|s| - 1];
      if !('0' <= c <= '9') then None
      else if |s| == 1 then Some((c - '0') as int)
      else match ParseNat(s[..|s| - 1])
           case Some(n) => Some(10 * n + (c - '0') as int)
           case None => None
  }

  // strconv.ParseInt(s, 10, 64)
  function ParseInt(s: string): Option<int> {
    var signed := s != "" && (s[0] == '-' || s[0] == '+');
    match ParseNat(if signed then s[1..] else s)
    case None => None
    case Some(n) =>
      var size: int := n;
      var v := if signed && s[0] == '-' then -size else size;
      if Int64(v) then Some(v) else None
  }

  /** The printed form is decimal: a last digit after the digits of the tenth part, and a minus sign. */
  lemma PrintsDecimal(n: nat, d: nat)
    requires d <= 9
    ensures PrintNat(d) == ["0123456789"[d]]
    ensures n > 0 ==> PrintNat(10 * n + d) == PrintNat(n) + ["0123456789"[d]]
    ensures Print(n) == PrintNat(n) && (n > 0 ==> Print(0 - n) == "-" + PrintNat(n))
  {
    assert DigitChar(d) == "0123456789"[d];
    assert (10 * n + d) / 10 == n && (10 * n + d) % 10 == d;
  }

  lemma {:induction false} ParseNatReads(s: string)
    ensures ParseNat(s).Some? <==> s != "" && forall k :: 0 <= k < |s| ==> '0' <= s[k] <= '9'
  {
    if |s| > 1 {
      var front := s[..|s| - 1];
      ParseNatReads(front);
      assert forall k :: 0 <= k < |front| ==> front[k] == s[k];
      if forall k :: 0 <= k < |s| ==> '0' <= s[k] <= '9' {
        assert ParseNat(front).Some?;
      }
    }
  }

  lemma {:induction false} ParseUndoesPrintNat(n: nat)
    ensures ParseNat(PrintNat(n)) == Some(n)
    ensures PrintNat(n)[0] != '-' && PrintNat(n)[0] != '+'
    decreases n
  {
    if n >= 10 {
      ParseUndoesPrintNat(n / 10);
      assert PrintNat(n)[..|PrintNat(n)| - 1] == PrintNat(n / 10);
    }
  }

  /** Digits parse with or without a sign, as long as the number fits into 64 bits. */
  lemma ParseIntReads(t: string, n: nat)
    requires ParseNat(t) == Some(n)
    ensures ParseInt(t) == ParseInt("+" + t) == if n < 0x8000_0000_0000_0000 then Some(n) else None
    ensures ParseInt("-" + t) == if n <= 0x8000_0000_0000_0000 then Some(0 - n) else None
  {
    ParseNatReads(t);
    assert ("+" + t)[1..] == t && ("-" + t)[1..] == t;
  }

  lemma ParseUndoesPrint(n: int)
    requires Int64(n)
    ensures ParseInt(Print(n)) == Some(n)
  {
    ParseUndoesPrintNat(if n < 0 then -n else n);
    if n < 0 { assert Print(n)[1..] == PrintNat(-n); }
  }

  // ---- The seat value ----

  function Encode(operator: string, second: int): string {
    operator + ":" + Print(second)
  }

  // strings.SplitN(s, ":", 2), when there is a colon.
  function SplitFirst(s: string): Option<(string, string)> {
    if s == "" then None
    else if s[0] == ':' then Some(("", s[1..]))
    else match SplitFirst(s[1..])
         case Some((a, b)) => Some(([s[0]] + a, b))
         case None => None
  }

  datatype GetError = Malformed | InvalidTimestamp

  function Decode(value: string): Result<(string, int), GetError> {
    match SplitFirst(value)
    case None => Failure(Malformed)
    case Some((operator, rest)) =>
      match ParseInt(rest)
      case None => Failure(InvalidTimestamp)
      case Some(second) => Success((operator, second))
  }

  lemma {:induction false} SplitAtColon(operator: string, rest: string)
    ensures SplitFirst(operator + ":" + rest).Some?
    ensures ':' !in operator ==> SplitFirst(operator + ":" + rest) == Some((operator, rest))
    ensures ':' in operator ==> SplitFirst(operator + ":" + rest).value.0 != operator
  {
    var s := operator + ":" + rest;
    if operator == "" {
      assert s[1..] == rest;
    } else {
      assert s[1..] == operator[1..] + ":" + rest;
      if operator[0] != ':' {
        SplitAtColon(operator[1..], rest);
        assert operator == [operator[0]] + operator[1..];
      }
    }
  }

  lemma {:induction false} SplitFirstReads(s: string)
    ensures SplitFirst(s).None? <==> ':' !in s
    ensures SplitFirst(s).Some? ==> ':' !in SplitFirst(s).value.0 && s == SplitFirst(s).value.0 + ":" + SplitFirst(s).value.1
  {
    if s != "" && s[0] != ':' {
      SplitFirstReads(s[1..]);
      assert s == [s[0]] + s[1..];
    }
  }

  /** What a value decodes to: it is malformed exactly without a colon; otherwise the operator is what stands
      before the first colon, and the rest must be an optional sign and decimal digits within 64 bits. */
  lemma DecodeReads(value: string)
    ensures Decode(value) == Failure(Malformed) <==> ':' !in value
    ensures Decode(value).Success? ==>
      var (operator, second) := Decode(value).value;
      ':' !in operator && operator + ":" <= value
      && ParseInt(value[|operator| + 1..]) == Some(second) && -0x8000_0000_0000_0000 <= second < 0x8000_0000_0000_0000
    ensures Decode(value) == Failure(InvalidTimestamp) ==>
      exists k :: 0 <= k < |value| && value[k] == ':' && ':' !in value[..k] && ParseInt(value[k + 1..]).None?
  {
    SplitFirstReads(value);
    if SplitFirst(value).Some? {
      var (operator, rest) := SplitFirst(value).value;
      var k := |operator|;
      assert value[k] == ':' && value[..k] == operator && value[k + 1..] == rest;
    }
  }

  /** Reading a seat gives back the acquiring operator and second, exactly for operator ids without a
      colon; for any other id the reported operator is a different one or the read fails. */
  lemma SeatRoundTrip(operator: string, second: int)
    requires Int64(second)
    ensures Decode(Encode(operator, second)) == Success((operator, second)) <==> ':' !in operator
  {
    SplitAtColon(operator, Print(second));
    ParseUndoesPrint(second);
  }

  // ---- The repository ----

  function Key(service: string, environment: string, memoryKey: string): string {
    service + ":" + environment + ":vigil:" + memoryKey
  }

  lemma KeysDistinct(service: string, environment: string, a: string, b: string)
    requires Key(service, environment, a) == Key(service, environment, b)
    ensures a == b
  {
    var prefix := service + ":" + environment + ":vigil:";
    assert Key(service, environment, a)[|prefix|..] == a;
    assert Key(service, environment, b)[|prefix|..] == b;
  }

  // Neither service nor environment names contain a colon; then no two of them share a key.
  lemma ServicesDistinct(s: string, e: string, m: string, t: string, f: string, n: string)
    requires ':' !in s && ':' !in e && ':' !in t && ':' !in f
    requires Key(s, e, m) == Key(t, f, n)
    ensures s == t && e == f && m == n
  {
    assert Key(s, e, m) == s + ":" + (e + ":" + ("vigil:" + m));
    assert Key(t, f, n) == t + ":" + (f + ":" + ("vigil:" + n));
    SplitAtColon(s, e + ":" + ("vigil:" + m));
    SplitAtColon(t, f + ":" + ("vigil:" + n));
    SplitAtColon(e, "vigil:" + m);
    SplitAtColon(f, "vigil:" + n);
    KeysDistinct(s, e, m, n);
  }

  lemma UnixReads(second: int, nanos: nat)
    requires nanos < 1_000_000_000
    ensures Unix(second * 1_000_000_000 + nanos) == second
  {
  }

  datatype Seat = Seat(memoryKey: string, operator: string, since: int, expiresAt: Time)

  class VigilRepository {
    const redis: Redis<string>
    const serviceName: string
    const environment: string

    constructor (redis: Redis<string>, serviceName: string, environment: string)
      ensures this.redis == redis && this.serviceName == serviceName && this.environment == environment
    {
      this.redis := redis;
      this.serviceName := serviceName;
      this.environment := environment;
    }

    // The second is read before the command is sent. False is ErrSessionHeld.
    method Acquire(memoryKey: string, operator: string, ttl: Duration, readAt: Time, now: Time) returns (ok: bool)
      modifies redis
      ensures ok == !Live(old(redis.store), now, Key(serviceName, environment, memoryKey))
      ensures redis.store == Apply(serviceName, environment, State(now, old(redis.store)), AcquireSeat(memoryKey, operator, ttl, readAt)).store
    {
      ok := redis.SetNX(now, Key(serviceName, environment, memoryKey), Encode(operator, Unix(readAt)), ttl);
    }

    method Release(memoryKey: string, now: Time)
      modifies redis
      ensures redis.store == Apply(serviceName, environment, State(now, old(redis.store)), ReleaseSeat(memoryKey)).store
    {
      redis.Del(Key(serviceName, environment, memoryKey));
    }

    method Refresh(memoryKey: string, ttl: Duration, now: Time)
      modifies redis
      ensures redis.store == Apply(serviceName, environment, State(now, old(redis.store)), RefreshSeat(memoryKey, ttl)).store
    {
      redis.Expire(now, Key(serviceName, environment, memoryKey), ttl);
    }

    // The remaining ttl is a second round trip; `left` is its answer.
    method Get(memoryKey: string, now: Time, left: int, later: Time) returns (r: Result<Option<Seat>, GetError>)
      ensures r == match TtlStore.Get(redis.store, now, Key(serviceName, environment, memoryKey))
                   case None => Success(None)
                   case Some(value) =>
                     match Decode(value)
                     case Failure(e) => Failure(e)
                     case Success((operator, since)) => Success(Some(Seat(memoryKey, operator, since, later + left)))
    {
      var value := redis.Get(now, Key(serviceName, environment, memoryKey));
      if value.None? {
        return Success(None);
      }
      match Decode(value.value)
      case Failure(e) => return Failure(e);
      case Success((operator, since)) => return Success(Some(Seat(memoryKey, operator, since, later + left)));
    }
  }

  // ---- Runs ----

  datatype State = State(now: Time, store: Store<string>)

  datatype Event =
    | Tick(d: nat)
    | AcquireSeat(memoryKey: string, operator: string, ttl: Duration, readAt: Time)
    | ReleaseSeat(memoryKey: string)
    | RefreshSeat(memoryKey: string, ttl: Duration)

  function Apply(service: string, environment: string, s: State, e: Event): State {
    match e
    case Tick(d) => s.(now := s.now + d)
    case AcquireSeat(m, operator, ttl, readAt) =>
      s.(store := SetNX(s.store, s.now, Key(service, environment, m), Encode(operator, Unix(readAt)), ttl))
    case ReleaseSeat(m) => s.(store := Del(s.store, Key(service, environment, m)))
    case RefreshSeat(m, ttl) => s.(store := Expire(s.store, s.now, Key(service, environment, m), ttl))
  }

  function Exec(service: string, environment: string, events: seq<Event>): State {
    if events == [] then State(0, map[])
    else Apply(service, environment, Exec(service, environment, events[..|events| - 1]), events[|events| - 1])
  }

  // Who sits at the session, as its key says.
  function SeatAt(service: string, environment: string, s: State, memoryKey: string): Option<string> {
    Get(s.store, s.now, Key(service, environment, memoryKey))
  }

  /** One step: a free seat is taken only by an Acquire of that session, with the acquiring operator and
      second; a taken one stays as it is, start included, until a Release or the clock frees it. */
  lemma SeatStep(service: string, environment: string, s: State, e: Event, m: string)
    ensures var before := SeatAt(service, environment, s, m);
      var after := SeatAt(service, environment, Apply(service, environment, s, e), m);
      && (before.None? && after.Some? ==>
            e.AcquireSeat? && e.memoryKey == m && after.value == Encode(e.operator, Unix(e.readAt)))
      && (before.Some? && after != before ==> after.None? && (e == ReleaseSeat(m) || e.Tick?))
      && (e == ReleaseSeat(m) ==> after.None?)
  {
    if !e.Tick? && Key(service, environment, e.memoryKey) == Key(service, environment, m) {
      KeysDistinct(service, environment, e.memoryKey, m);
    }
  }

  /** How long it lasts: a granted Acquire and a Refresh of a taken seat make it last exactly their ttl from
      then on; no call touches another session's seat. */
  lemma SeatLasts(service: string, environment: string, s: State, e: Event, m: string, d: nat)
    requires !e.Tick?
    ensures var before := SeatAt(service, environment, s, m);
      var t := Apply(service, environment, s, e);
      var after := SeatAt(service, environment, Apply(service, environment, t, Tick(d)), m);
      after ==
        if e.memoryKey != m then SeatAt(service, environment, Apply(service, environment, s, Tick(d)), m)
        else match e
             case ReleaseSeat(_) => None
             case RefreshSeat(_, ttl) => if d < ttl then before else None
             case AcquireSeat(_, operator, ttl, readAt) =>
               if before.Some? then SeatAt(service, environment, Apply(service, environment, s, Tick(d)), m)
               else if d < ttl then Some(operator + ":" + Print(Unix(readAt))) else None
  {
    if Key(service, environment, e.memoryKey) == Key(service, environment, m) {
      KeysDistinct(service, environment, e.memoryKey, m);
    }
  }

  // Event n takes the seat with this value, and from then on the seat has had that value without a break.
  ghost predicate HeldSince(service: string, environment: string, events: seq<Event>, m: string, n: nat, value: string) {
    && n < |events|
    && events[n].AcquireSeat? && events[n].memoryKey == m
    && SeatAt(service, environment, Exec(service, environment, events[..n]), m) == None
    && value == Encode(events[n].operator, Unix(events[n].readAt))
    && (forall k :: n < k <= |events| ==> SeatAt(service, environment, Exec(service, environment, events[..k]), m) == Some(value))
    && (forall k :: n < k < |events| ==> events[k] != ReleaseSeat(m))
  }

  // A seat still held after one more event has been held since the same Acquire.
  lemma HeldOneMore(service: string, environment: string, front: seq<Event>, e: Event, m: string, n: nat, value: string)
    requires HeldSince(service, environment, front, m, n, value) && e != ReleaseSeat(m)
    requires SeatAt(service, environment, Exec(service, environment, front + [e]), m) == Some(value)
    ensures HeldSince(service, environment, front + [e], m, n, value)
  {
    var events := front + [e];
    assert events[..n] == front[..n];
    forall k | n < k <= |events|
      ensures SeatAt(service, environment, Exec(service, environment, events[..k]), m) == Some(value)
    {
      assert events[..k] == if k < |events| then front[..k] else events;
    }
  }

  lemma HeldFromHere(service: string, environment: string, front: seq<Event>, e: Event, m: string, value: string)
    requires e.AcquireSeat? && e.memoryKey == m && SeatAt(service, environment, Exec(service, environment, front), m) == None
    requires value == Encode(e.operator, Unix(e.readAt))
    requires SeatAt(service, environment, Exec(service, environment, front + [e]), m) == Some(value)
    ensures HeldSince(service, environment, front + [e], m, |front|, value)
  {
    var events := front + [e];
    assert events[..|front|] == front && events[..|events|] == events;
  }

  /** In every run a seat that is taken was taken by one Acquire of that session when it was free, and has
      belonged to that operator, since that second, ever since, with no Release in between: Refresh
      never creates, transfers or restarts a seat. */
  lemma {:induction false} SeatHasOneHolder(service: string, environment: string, events: seq<Event>, m: string)
    requires SeatAt(service, environment, Exec(service, environment, events), m).Some?
    ensures exists n :: HeldSince(service, environment, events, m, n, SeatAt(service, environment, Exec(service, environment, events), m).value)
  {
    var front, e := events[..|events| - 1], events[|events| - 1];
    var s := Exec(service, environment, front);
    var value := SeatAt(service, environment, Exec(service, environment, events), m).value;
    SeatStep(service, environment, s, e, m);
    assert events == front + [e];
    if SeatAt(service, environment, s, m).Some? {
      SeatHasOneHolder(service, environment, front, m);
      var n :| HeldSince(service, environment, front, m, n, value);
      HeldOneMore(service, environment, front, e, m, n, value);
    } else {
      HeldFromHere(service, environment, front, e, m, value);
    }
  }

  /** What Get decodes from a taken seat is the operator and the second of the Acquire that has held it
      ever since, exactly when that operator's id has no colon. */
  lemma SeatReadsBack(service: string, environment: string, events: seq<Event>, m: string)
    requires SeatAt(service, environment, Exec(service, environment, events), m).Some?
    ensures var value := SeatAt(service, environment, Exec(service, environment, events), m).value;
      exists n: nat :: HeldSince(service, environment, events, m, n, value)
        && (Int64(Unix(events[n].readAt)) ==>
              (Decode(value) == Success((events[n].operator, Unix(events[n].readAt))) <==> ':' !in events[n].operator))
  {
    var value := SeatAt(service, environment, Exec(service, environment, events), m).value;
    SeatHasOneHolder(service, environment, events, m);
    var n: nat :| HeldSince(service, environment, events, m, n, value);
    if Int64(Unix(events[n].readAt)) {
      SeatRoundTrip(events[n].operator, Unix(events[n].readAt));
    }
  }
}
