/** The cripter objects of both ends, each proved against what Channel says its calls do. */
module Cripters {
  import opened Options
  import opened Generator
  import opened Packing
  import opened Cipher
  import opened Channel

  /** The server's MyCripter (MyCrypter.h). */
  class ServerCripter {
    const config: Config
    const randGen: MyRand
    var connected: bool

    ghost predicate Valid()
      reads this, randGen, randGen.state, randGen.buf
    {
      randGen.Valid() && randGen.k == config.keys
    }

    ghost function State(): End
      reads this, randGen
    {
      End(randGen.value, connected)
    }

    constructor (config: Config)
      ensures Valid() && this.config == config && !connected
    {
      this.config := config;
      randGen := new MyRand(config.keys);
      connected := false;
    }

    method Encrypt(text: seq<bv8>) returns (wire: seq<bv8>)
      requires Valid()
      modifies randGen`bufPos, randGen`value, randGen.state, randGen.buf
      ensures Valid() && Spoken(State(), wire) == ServerEncrypt(old(State()), text)
    {
      wire := CodBuf(randGen, text, Server);
    }

    method Decrypt(request: seq<bv8>) returns (message: seq<bv8>)
      requires Valid()
      modifies this`connected, randGen`bufPos, randGen`value, randGen.state, randGen.buf
      ensures Valid() && Heard(State(), message) == ServerDecrypt(config, old(State()), request)
    {
      if !connected {
        randGen.Srand(config.request);
      }
      assert randGen.value == ServerOpens(config, old(State()));
      var accepted, buffer, n := DecodBuf(randGen, request, Server);
      message := if accepted then buffer[..n] else [];
      if message != [] {
        if !connected {
          connected := true;
          randGen.Srand(message);
        }
      } else {
        connected := false;
      }
    }

    /** `set_post`, and `set` around its ledger update: the reply to a request. */
    method Answer(put: bool, request: seq<bv8>) returns (message: seq<bv8>, wire: seq<bv8>)
      requires Valid()
      modifies this`connected, randGen`bufPos, randGen`value, randGen.state, randGen.buf
      ensures Valid()
      ensures
        var taken := ServerDecrypt(config, old(State()), request);
        && message == taken.message
        && Spoken(State(), wire) == ServerEncrypt(taken.end, Reply(config, put, message))
    {
      message := Decrypt(request);
      if (put && |message| != 80) || (!put && message == []) {
        wire := Encrypt(InvalidSize());
      } else {
        wire := Encrypt(config.response);
      }
    }
  }

  lemma {:induction false} UpToZeroAt(m: seq<bv8>, k: nat)
    requires k <= |m| && (forall i: nat :: i < k ==> m[i] != 0) && (k < |m| ==> m[k] == 0)
    ensures UpToZero(m) == m[..k]
  {
    if k > 0 {
      UpToZeroAt(m[1..], k - 1);
    }
  }

  /** The client's MyCripter (MyCripter.java). */
  class ClientCripter {
    const config: Config
    const randGen: MyRand
    var connected: bool

    ghost predicate Valid()
      reads this, randGen, randGen.state, randGen.buf
    {
      randGen.Valid() && randGen.k == config.keys
    }

    ghost function State(): End
      reads this, randGen
    {
      End(randGen.value, connected)
    }

    constructor (config: Config)
      ensures Valid() && this.config == config && !connected
    {
      this.config := config;
      randGen := new MyRand(config.keys);
      connected := false;
      new;
      randGen.Srand(config.request);
    }

    /** The seed drawn from the clock-stirred generator is an input. */
    method Encrypt(data: seq<bv8>, zerno: seq<bv8>) returns (wire: seq<bv8>)
      requires Valid()
      modifies randGen`bufPos, randGen`value, randGen.state, randGen.buf
      ensures Valid() && Spoken(State(), wire) == ClientEncrypt(config, old(State()), zerno, data)
    {
      if !connected {
        randGen.Srand(config.request);
        wire := CodBuf(randGen, zerno, Client);
        randGen.Srand(zerno);
        return;
      }
      wire := CodBuf(randGen, data, Client);
    }

    /** The buffer that comes back has a zero in the checksum's place and the rest of the last block
        behind it. */
    method ValidationResponse(request: seq<bv8>) returns (valid: bool)
      requires Valid()
      modifies randGen`bufPos, randGen`value, randGen.state, randGen.buf
      ensures Valid() && connected == old(connected)
      ensures randGen.value == Decode(Client, old(randGen.value), request).gen
      ensures valid == Validates(config, Decode(Client, old(randGen.value), request).reading)
    {
      var accepted, buffer, size := DecodBuf(randGen, request, Client);
      if !accepted {
        return false;
      }
      var text := TextBefore(buffer, size);
      valid := text == config.response;
    }

    /** Puts the zero in the checksum's place and reads up to the first zero. */
    static method TextBefore(buffer: array<bv8>, size: nat) returns (text: seq<bv8>)
      requires size < buffer.Length
      modifies buffer
      ensures text == UpToZero(old(buffer[..size]))
    {
      ghost var m := buffer[..size];
      buffer[size] := 0;
      assert buffer[..size] == m;
      var n := FirstZero(buffer, size);
      UpToZeroAt(m, n);
      assert buffer[..n] == m[..n];
      text := buffer[..n];
    }

    static method FirstZero(buffer: array<bv8>, ghost size: nat) returns (n: nat)
      requires size < buffer.Length && buffer[size] == 0
      ensures n <= size && buffer[n] == 0 && forall i: nat :: i < n ==> buffer[i] != 0
    {
      n := 0;
      while n < buffer.Length && buffer[n] != 0
        invariant n <= size && forall i: nat :: i < n ==> buffer[i] != 0
      {
        n := n + 1;
      }
    }

    method Decrypt(data: seq<bv8>) returns (r: bool)
      requires Valid()
      modifies this`connected, randGen`bufPos, randGen`value, randGen.state, randGen.buf
      ensures Valid() && State() == ClientDecrypt(config, old(State()), data) && r == connected
    {
      connected := ValidationResponse(data);
      r := connected;
    }

    /** What `send` does with what comes back: no reply, or one that is not good, disconnects. */
    method Conclude(reply: Option<seq<bv8>>) returns (good: bool)
      requires Valid()
      modifies this`connected, randGen`bufPos, randGen`value, randGen.state, randGen.buf
      ensures Valid() && good == connected
      ensures State() == if reply.None? then old(State()).(connected := false)
                         else ClientDecrypt(config, old(State()), reply.value)
    {
      if reply.None? {
        ResetConnected();
        return false;
      }
      good := Decrypt(reply.value);
    }

    method ResetConnected()
      requires Valid()
      modifies this`connected
      ensures Valid() && State() == old(State()).(connected := false)
    {
      connected := false;
    }
  }
}
