/** The two server-side scripts of `GroupedCache`, command by command. */
module Scripts {
  import opened Texts

  datatype FieldValue = FieldValue(payload: Text, expires: Option<nat>)

  datatype Stored = Str(text: Text) | Hash(fields: map<Text, FieldValue>)

  /** How the server answers HPEXPIRE: an error, or a code, the expiry being ignored or set, and then to
      what it makes of the milliseconds asked for. */
  datatype Expiry = Fails | Answers(code: int, sets: Option<nat -> nat>)

  /** What the connection may do, and how field expiry behaves on this server. */
  datatype Server = Server(
    mayHset: bool, mayHdel: bool, mayDel: bool, mayHpexpire: bool, expiry: Expiry, mayHpttl: bool)

  function ExpiryReply(server: Server): Expiry {
    if server.mayHpexpire then server.expiry else Fails
  }

  datatype WriteResult = Written | Denied | WrongType | Undone

  /** Field expiry takes effect here, if not necessarily to the millisecond. */
  predicate Effective(server: Server) {
    server.mayHpexpire && server.expiry.Answers? && server.expiry.sets.Some?
  }

  /** The milliseconds a field really gets. */
  function Granted(server: Server, ms: nat): nat
    requires Effective(server)
  {
    (server.expiry.sets.value)(ms)
  }

  /** A server that gives fields exactly what is asked for. */
  ghost predicate Dependable(server: Server) {
    Effective(server) && forall ms: nat :: Granted(server, ms) == ms
  }

  function Get(keys: map<Text, Stored>, key: Text, field: Text): Option<FieldValue> {
    if key in keys && keys[key].Hash? && field in keys[key].fields then Some(keys[key].fields[field]) else None
  }

  /** Redis keeps no empty hash. */
  ghost predicate Normal(keys: map<Text, Stored>) {
    forall k <- keys :: keys[k].Hash? ==> keys[k].fields != map[]
  }

  ghost predicate AllTimed(keys: map<Text, Stored>) {
    forall k, f :: Get(keys, k, f).Some? ==> Get(keys, k, f).value.expires.Some?
  }

  /** The same everywhere but at one field. */
  ghost predicate SameElsewhere(a: map<Text, Stored>, b: map<Text, Stored>, key: Text, field: Text) {
    && (forall k, f :: (k, f) != (key, field) ==> Get(a, k, f) == Get(b, k, f))
    && (forall k :: k != key ==> (k in a <==> k in b) && (k in a ==> a[k] == b[k]))
  }

  class Redis {
    var now: nat
    var keys: map<Text, Stored>

    constructor (now: nat, keys: map<Text, Stored>)
      ensures this.now == now && this.keys == keys
    {
      this.now := now;
      this.keys := keys;
    }

    // ---- Commands ----

    /** Setting a field also clears the expiry it had. */
    method HSet(key: Text, field: Text, payload: Text) returns (ok: bool)
      requires Normal(keys)
      modifies `keys
      ensures Normal(keys)
      ensures ok <==> (key in old(keys) ==> old(keys)[key].Hash?)
      ensures !ok ==> keys == old(keys)
      ensures ok ==> Get(keys, key, field) == Some(FieldValue(payload, None))
      ensures ok ==> SameElsewhere(old(keys), keys, key, field)
      ensures ok && key !in old(keys) ==> keys == old(keys)[key := Hash(map[field := FieldValue(payload, None)])]
    {
      ok := key in keys ==> keys[key].Hash?;
      if ok {
        var fields := if key in keys then keys[key].fields else map[];
        fields := fields[field := FieldValue(payload, None)];
        assert field in fields;
        keys := keys[key := Hash(fields)];
      }
    }

    method HPExpire(server: Server, key: Text, ttl: nat, field: Text) returns (reply: Expiry)
      requires Normal(keys) && Get(keys, key, field).Some?
      modifies `keys
      ensures Normal(keys) && reply == ExpiryReply(server)
      ensures var before := old(Get(keys, key, field).value);
              Get(keys, key, field) ==
              Some(if Effective(server) then before.(expires := Some(now + Granted(server, ttl))) else before)
      ensures SameElsewhere(old(keys), keys, key, field)
      ensures !Effective(server) ==> keys == old(keys)
    {
      reply := ExpiryReply(server);
      if reply.Answers? && reply.sets.Some? {
        var fields := keys[key].fields;
        keys := keys[key := Hash(fields[field := fields[field].(expires := Some(now + (reply.sets.value)(ttl)))])];
      }
    }

    method HDel(key: Text, field: Text)
      requires Normal(keys)
      modifies `keys
      ensures Normal(keys) && Get(keys, key, field) == None && SameElsewhere(old(keys), keys, key, field)
    {
      if key in keys && keys[key].Hash? && field in keys[key].fields {
        var fields := keys[key].fields - {field};
        assert forall f <- keys[key].fields :: f != field ==> f in fields;
        if fields == map[] {
          keys := keys - {key};
        } else {
          keys := keys[key := Hash(fields)];
        }
      }
    }

    /** Remaining milliseconds, -1 without an expiry, -2 without the field; None is an error. */
    method HPTtl(server: Server, key: Text, field: Text) returns (reply: Option<int>)
      ensures reply.Some? <==> server.mayHpttl
      ensures reply.Some? ==>
                reply.value == match Get(keys, key, field)
                               case None => -2
                               case Some(FieldValue(_, None)) => -1
                               case Some(FieldValue(_, Some(expires))) => expires - now
    {
      if !server.mayHpttl { return None; }
      var v := Get(keys, key, field);
      reply := match v
        case None => Some(-2)
        case Some(FieldValue(_, None)) => Some(-1)
        case Some(FieldValue(_, Some(expires))) => Some(expires - now);
    }

    // ---- Scripts ----

    /** `WRITE_FIELD_LUA`. Refused before it touches anything, or carried out, or taken back whole:
        a write that could not be given an expiry leaves no value behind, old or new. No other field
        is ever affected. */
    method WriteField(server: Server, key: Text, field: Text, payload: Text, ttl: nat) returns (r: WriteResult)
      requires Normal(keys)
      modifies `keys
      ensures Normal(keys) && SameElsewhere(old(keys), keys, key, field)
      ensures r == Denied <==> !(server.mayHset && server.mayHdel)
      ensures r == WrongType <==> server.mayHset && server.mayHdel && key in old(keys) && old(keys)[key].Str?
      ensures r == Denied || r == WrongType ==> keys == old(keys)
      ensures r == Written || r == Undone ==>
                (r == Written <==> ExpiryReply(server).Answers? && ExpiryReply(server).code == 1)
      ensures r == Undone ==> Get(keys, key, field) == None
      ensures r == Written ==>
                Get(keys, key, field) ==
                Some(FieldValue(payload, if Effective(server) then Some(now + Granted(server, ttl)) else None))
    {
      if !server.mayHset || !server.mayHdel {
        return Denied;
      }
      var ok := HSet(key, field, payload);
      if !ok { return WrongType; }
      var expiry := HPExpire(server, key, ttl, field);
      if expiry.Fails? || expiry.code != 1 {
        HDel(key, field);
        return Undone;
      }
      return Written;
    }

    /** `verify_field_ttl` on a key nobody uses. Whatever the server answers, the keyspace ends as it
        began; and with a backstop configured, acceptance is exactly that asking for 5000 ms put an expiry
        of 1 to 5000 ms into effect and that it could be observed. */
    method VerifyFieldTtl(server: Server, backstopMs: nat, key: Text) returns (accepted: bool)
      requires Normal(keys) && key !in keys
      modifies `keys
      ensures keys == old(keys)
      ensures accepted <==>
                || backstopMs == 0
                || (server.mayDel && server.mayHset && server.mayHpttl && Effective(server)
                    && 1 <= Granted(server, 5000) <= 5000)
    {
      if backstopMs == 0 { return true; }
      var probe := [112, 114, 111, 98, 101];
      if !server.mayDel || !server.mayHset { return false; }
      if !server.mayHpexpire { return false; }
      var _ := HSet(key, probe, [49]);
      var expiry := HPExpire(server, key, 5000, probe);
      if expiry.Fails? {
        keys := keys - {key};
        return false;
      }
      var ttl := HPTtl(server, key, probe);
      keys := keys - {key};
      if ttl.None? { return false; }
      accepted := 0 < ttl.value <= 5000;
    }

    /** A cache that passed its startup probe never leaves a field without a deadline: not the one it
        writes, and if all fields had one before the write, all have one after it. */
    method ProbedWrite(server: Server, backstopMs: nat, probeKey: Text,
                       key: Text, field: Text, payload: Text, jitter: nat)
      returns (accepted: bool, r: WriteResult)
      requires Normal(keys) && probeKey !in keys && backstopMs > 0 && jitter <= 1000
      modifies `keys
      ensures accepted ==> Effective(server)
      ensures accepted && r == Written ==>
                Get(keys, key, field) == Some(FieldValue(payload, Some(now + Granted(server, backstopMs + jitter))))
      ensures r == Undone ==> Get(keys, key, field) == None
      ensures r == Denied || r == WrongType ==> keys == old(keys)
      ensures SameElsewhere(old(keys), keys, key, field)
      ensures accepted && old(AllTimed(keys)) ==> AllTimed(keys)
    {
      accepted := VerifyFieldTtl(server, backstopMs, probeKey);
      r := WriteField(server, key, field, payload, backstopMs + jitter);
    }
  }
}
