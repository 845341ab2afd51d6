/** The collector as an object: callbacks that write into fixed buffers. */
module HttpCollectorObject {
  import opened Bytes
  import opened HttpTypes
  import opened HttpCollect
  import opened MemoryStream

  /** Appends to the `len` characters in `buf` what fits in front of a closing zero. */
  method Append(buf: array<char>, len: nat, data: string) returns (n: nat)
    requires len < buf.Length
    modifies buf
    ensures n < buf.Length && buf[..n] == Clip(old(buf[..len]) + data, buf.Length) && buf[n] == '\0'
  {
    var room := buf.Length - len - 1;
    var k := if room < |data| then room else |data|;
    forall i | 0 <= i < k { buf[len + i] := data[i]; }
    n := len + k;
    buf[n] := '\0';
    assert buf[..n] == old(buf[..len]) + data[..k];
    assert (old(buf[..len]) + data)[..n] == old(buf[..len]) + data[..k];
  }

  class HeaderSlot {
    const fieldBuf: array<char>
    const valueBuf: array<char>
    var fieldLen: nat
    var valueLen: nat

    ghost predicate Valid()
      reads this
    {
      fieldBuf.Length == FIELD_SIZE && valueBuf.Length == VALUE_SIZE && fieldBuf != valueBuf
      && fieldLen < FIELD_SIZE && valueLen < VALUE_SIZE
    }

    ghost function View(): Header
      requires Valid()
      reads this, fieldBuf, valueBuf
    {
      Header(fieldBuf[..fieldLen], valueBuf[..valueLen])
    }

    constructor ()
      ensures Valid() && View() == Header("", "") && fresh(fieldBuf) && fresh(valueBuf)
    {
      fieldBuf, valueBuf, fieldLen, valueLen := new char[FIELD_SIZE], new char[VALUE_SIZE], 0, 0;
    }

    method AppendField(data: string)
      requires Valid()
      modifies this`fieldLen, fieldBuf
      ensures Valid() && View() == old(View()).(field := Clip(old(View()).field + data, FIELD_SIZE))
    {
      fieldLen := Append(fieldBuf, fieldLen, data);
    }

    method AppendValue(data: string)
      requires Valid()
      modifies this`valueLen, valueBuf
      ensures Valid() && View() == old(View()).(value := Clip(old(View()).value + data, VALUE_SIZE))
    {
      valueLen := Append(valueBuf, valueLen, data);
    }
  }

  /** No callback is set for the status line. */
  lemma NoCallback(c: Collected)
    requires Sound(c)
    ensures Called(c, StatusComplete) == c
  {
  }

  class HttpCollector {
    const slots: seq<HeaderSlot>
    var head: nat
    var tail: nat
    var it: nat
    var url: string
    var statusCode: int
    var headersComplete: bool
    var messageComplete: bool
    var content: Flat

    ghost predicate Apart()
    {
      && |slots| == HEADERS
      && (forall i, j :: 0 <= i < j < HEADERS ==>
            slots[i] != slots[j] && slots[i].fieldBuf != slots[j].fieldBuf && slots[i].valueBuf != slots[j].valueBuf)
      && (forall i, j :: 0 <= i < HEADERS && 0 <= j < HEADERS ==> slots[i].fieldBuf != slots[j].valueBuf)
    }

    ghost predicate Valid()
      reads this, slots
    {
      Apart() && (forall i :: 0 <= i < HEADERS ==> slots[i].Valid()) && head <= tail <= HEADERS && it <= tail
    }

    ghost function Fields(): set<array<char>> { set s | s in slots :: s.fieldBuf }

    ghost function Values(): set<array<char>> { set s | s in slots :: s.valueBuf }

    ghost function Headers(): seq<Header>
      requires Apart() && forall i :: 0 <= i < HEADERS ==> slots[i].Valid()
      reads slots, Fields(), Values()
    {
      seq(HEADERS, i requires 0 <= i < HEADERS && slots[i].Valid() reads slots, Fields(), Values() => slots[i].View())
    }

    ghost function State(): (c: Collected)
      requires Valid()
      reads this, slots, Fields(), Values()
      ensures Sound(c)
    {
      Collected(Headers(), head, tail, it, url, statusCode, headersComplete, messageComplete, content)
    }

    constructor (content: Flat)
      ensures Valid() && State() == Fresh(content)
      ensures forall s :: s in slots ==> fresh(s) && fresh(s.fieldBuf) && fresh(s.valueBuf)
    {
      var ss: seq<HeaderSlot> := [];
      while |ss| < HEADERS
        invariant |ss| <= HEADERS
        invariant forall s :: s in ss ==> fresh(s) && fresh(s.fieldBuf) && fresh(s.valueBuf)
        invariant forall i :: 0 <= i < |ss| ==> ss[i].Valid() && ss[i].View() == Header("", "")
        invariant forall i, j :: 0 <= i < j < |ss| ==>
                    ss[i] != ss[j] && ss[i].fieldBuf != ss[j].fieldBuf && ss[i].valueBuf != ss[j].valueBuf
        invariant forall i, j :: 0 <= i < |ss| && 0 <= j < |ss| ==> ss[i].fieldBuf != ss[j].valueBuf
      {
        var s := new HeaderSlot();
        ss := ss + [s];
      }
      slots, head, tail, it := ss, 0, HEADERS, 0;
      url, statusCode, headersComplete, messageComplete := "", -1, false, false;
      this.content := content;
    }

    method OnMessageBegin()
      requires Valid()
      modifies this`it
      ensures Valid() && State() == Called(old(State()), MessageBegin)
    {
      it := 0;
    }

    method OnHeadersComplete(status: nat)
      requires Valid()
      modifies this
      ensures Valid() && State() == Called(old(State()), HeadersComplete(status))
    {
      head, tail := 0, it;
      headersComplete := true;
      statusCode := status;
    }

    method OnMessageComplete()
      requires Valid()
      modifies this`messageComplete
      ensures Valid() && State() == Called(old(State()), MessageComplete)
    {
      messageComplete := true;
    }

    method OnUrl(data: string)
      requires Valid()
      modifies this`url
      ensures Valid() && State() == Called(old(State()), Data(Url, data))
    {
      url := url + data;
    }

    method OnHeaderField(data: string)
      requires Valid()
      modifies this`head, slots, Fields()
      ensures Valid() && State() == Called(old(State()), Data(Field, data))
    {
      hide Clip;
      if head != it { head := it; }
      if head != tail {
        ghost var h := old(Headers()[it]);
        slots[head].AppendField(data);
        assert Headers() == old(Headers())[head := h.(field := Clip(h.field + data, FIELD_SIZE))];
      } else {
        assert Headers() == old(Headers());
      }
    }

    method OnHeaderValue(data: string)
      requires Valid()
      modifies this`it, slots, Values()
      ensures Valid() && State() == Called(old(State()), Data(Value, data))
    {
      hide Clip;
      if head != tail {
        if head == it { it := it + 1; }
        ghost var h := old(Headers()[head]);
        slots[head].AppendValue(data);
        assert Headers() == old(Headers())[head := h.(value := Clip(h.value + data, VALUE_SIZE))];
      }
    }

    method OnBody(data: string)
      requires Valid()
      modifies this`content
      ensures Valid() && State() == Called(old(State()), Data(Body, data))
    {
      content := content.Write(data).0;
    }

    /** Gives the collector the stream that bodies are written to. */
    method WriteTo(stream: Flat)
      requires Valid()
      modifies this`content
      ensures Valid() && State() == old(State()).(content := stream)
    {
      content := stream;
    }

    /** A callback of the parser. */
    method On(e: Event)
      requires Valid()
      modifies this, slots, Fields(), Values()
      ensures Valid() && State() == Called(old(State()), e)
    {
      hide Called;
      match e
      case MessageBegin => OnMessageBegin();
      case StatusComplete => NoCallback(State());
      case HeadersComplete(status) => OnHeadersComplete(status);
      case MessageComplete => OnMessageComplete();
      case Data(part, data) =>
        match part
        case Url => OnUrl(data);
        case Field => OnHeaderField(data);
        case Value => OnHeaderValue(data);
        case Body => OnBody(data);
    }

    /** Callbacks one after the other. */
    method OnAll(es: seq<Event>)
      requires Valid()
      modifies this, slots, Fields(), Values()
      ensures Valid() && State() == Apply(old(State()), es)
    {
      hide Called, Sound;
      var i := 0;
      assert es[0..] == es;
      while i < |es|
        invariant 0 <= i <= |es| && Valid() && Apply(State(), es[i..]) == Apply(old(State()), es)
      {
        assert es[i..][0] == es[i] && es[i..][1..] == es[i + 1..];
        CalledSound(State(), es[i]);
        On(es[i]);
        i := i + 1;
      }
      assert es[i..] == [];
    }

    method ClearHeaders()
      requires Apart() && forall i :: 0 <= i < HEADERS ==> slots[i].Valid()
      modifies this, slots
      ensures Valid() && head == it == 0 && tail == HEADERS && Headers() == BlankHeaders()
      ensures url == old(url) && statusCode == old(statusCode) && content == old(content)
      ensures headersComplete == old(headersComplete) && messageComplete == old(messageComplete)
    {
      head, tail := 0, HEADERS;
      var i := 0;
      while i != tail
        invariant 0 <= i <= HEADERS && tail == HEADERS && head == 0
        invariant forall k :: 0 <= k < HEADERS ==> slots[k].Valid()
        invariant forall k :: 0 <= k < i ==> slots[k].fieldLen == 0 && slots[k].valueLen == 0
        invariant url == old(url) && statusCode == old(statusCode) && content == old(content)
        invariant headersComplete == old(headersComplete) && messageComplete == old(messageComplete)
      {
        slots[i].fieldLen := 0;
        slots[i].valueLen := 0;
        i := i + 1;
      }
      it := head;
    }

    method Reset()
      requires Valid()
      modifies this, slots
      ensures Valid() && State() == Fresh(old(content))
    {
      statusCode := -1;
      headersComplete, messageComplete := false, false;
      url := "";
      ClearHeaders();
    }

    /** The value of the first header with this name, whatever its case. */
    method Lookup(name: string) returns (found: bool, value: string)
      requires Valid()
      ensures GetHeader(State(), name) == if found then Found(value) else Missing
    {
      hide LowerAll;
      var i := head;
      while i != tail && LowerAll(slots[i].fieldBuf[..slots[i].fieldLen]) != LowerAll(name)
        invariant head <= i <= tail
        invariant Find(Headers(), name, head, tail) == Find(Headers(), name, i, tail)
      {
        i := i + 1;
      }
      found := i != tail;
      value := if found then slots[i].valueBuf[..slots[i].valueLen] else "";
    }
  }
}
