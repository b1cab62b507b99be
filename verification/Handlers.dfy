/** `RPMAHandler` and `ClientHandler` as objects: fixed buffers overwritten in place, requests decoded out of them. */
module Handlers {
  import opened Bytes
  import opened Wire
  import Codec
  import opened Handshake

  /** Encodes a message and copies it to the front of a buffer, after the sender's length assertion. */
  method PutMessage(dst: array<byte>, m: Message)
    requires dst.Length == MSG_SIZE && |Encode(m)| < MSG_SIZE
    modifies dst
    ensures dst[..] == Overwrite(old(dst[..]), Encode(m))
  {
    var bl := new Codec.BufferList();
    bl.PutMessage(m);
    assert bl.bytes == Encode(m);
    Codec.CopyIn(dst, bl.bytes);
  }

  class RpmaHandler {
    const sendBl: array<byte>
    const recvBl: array<byte>
    var region: Option<Region>
    var mr: Option<Key>
    var halted: bool
    ghost var keys: seq<Key>
    ghost var credits: nat
    ghost var pending: seq<Posted>
    ghost var arrived: bool
    ghost var task: Task
    ghost var handled: nat
    ghost var finished: nat
    ghost var sends: nat

    ghost predicate Valid() {
      sendBl.Length == recvBl.Length == MSG_SIZE && sendBl != recvBl
    }

    ghost function Now(): Server
      reads this, sendBl, recvBl
    {
      Server(sendBl[..], recvBl[..], credits, pending, arrived, task, region, mr, keys, handled, finished, sends, halted)
    }

    /** A handler before its connection is accepted: the first receive is already posted. */
    constructor ()
      ensures Valid() && fresh(sendBl) && fresh(recvBl)
      ensures credits == 1 && pending == [] && !arrived && task == Resting && region.None? && mr.None? && keys == [] && !halted
      ensures handled == finished == sends == 0
    {
      sendBl := new byte[MSG_SIZE];
      recvBl := new byte[MSG_SIZE];
      region, mr, halted, keys := None, None, false, [];
      credits, pending, arrived, task, handled, finished, sends := 1, [], false, Resting, 0, 0, 0;
    }

    method Send()
      modifies this`pending, this`sends
      ensures Now() == PostSend(old(Now()))
    {
      pending := pending + [Posted(sendBl[..], handled + 1)];
      sends := sends + 1;
    }

    method Receive()
      modifies this`credits
      ensures Now() == PostReceive(old(Now()))
    {
      credits := credits + 1;
    }

    /** Registers anew, which ends the old registration; then grows the descriptor string in two steps and sends it with its sizes. */
    method RegisterMrToDescriptor(o: Outcome) returns (ok: bool)
      requires Valid() && region.Some? && |o.key| <= 4057
      modifies this`mr, this`keys, sendBl
      ensures Now() == Advertise(old(Now()), region.value, o)
      ensures ok <==> o.registered && (region.value.pmem ==> o.configured)
    {
      if !o.registered {
        return false;
      }
      mr := Some(o.key);
      keys := keys + [o.key];
      var desc := MrDescriptor(region.value, o.key);
      var descriptors := desc;
      if region.value.pmem && !o.configured {
        return false;
      }
      var pcfg := PeerConfig(region.value.pmem);
      descriptors := descriptors + pcfg;
      ReplyFits(region.value, o.key);
      PutMessage(sendBl, Message.Reply(INIT_SUCCEEDED, ConfigDescriptor(|desc|, |pcfg|, descriptors)));
      ok := true;
    }

    method GetDescriptorForWrite(o: Outcome)
      requires Valid() && |o.key| <= 4057
      modifies this`region, this`mr, this`keys, this`halted, sendBl
      ensures Now() == Setup(old(Now()), o)
    {
      hide DecodeInit, Advertise;
      var it := new Codec.Iterator(recvBl[..]);
      var m := it.GetInit();
      if m.None? {
        halted := true;
        return;
      }
      if region.None? {
        if o.alloc.None? {
          halted := true;
          return;
        }
        region := Some(Region(m.value.info.cacheSize, o.alloc.value));
      }
      var _ := RegisterMrToDescriptor(o);
    }

    method CloseRegion(o: Outcome)
      requires Valid()
      modifies this`region, this`mr, this`finished, this`pending, this`sends, sendBl
      ensures Now() == Close(old(Now()), o)
    {
      var reply := Plain(FINISHED_SUCCEEDED);
      if region.Some? && !o.removed {
        reply := Plain(FINISHED_FAILED);
      }
      mr := None;
      region := None;
      finished := finished + 1;
      FrameSizes(reply);
      PutMessage(sendBl, reply);
      Send();
    }

    method Dispatch(o: Outcome)
      requires Valid() && |o.key| <= 4057
      modifies this`region, this`mr, this`keys, this`halted, this`finished, this`pending, this`sends, sendBl
      ensures Now() == GetDescriptor(old(Now()), o)
    {
      hide DecodePlain, Setup, Close;
      var it := new Codec.Iterator(recvBl[..]);
      var ty := it.GetPlain();
      if ty.None? {
        halted := true;
        return;
      }
      if ty.value == INIT_REQUEST {
        GetDescriptorForWrite(o);
      } else if ty.value == FINISHED_REQUEST {
        CloseRegion(o);
      }
    }

    /** The receive's callback: handle, post the next receive, then send. */
    method Deal(o: Outcome)
      requires Valid() && |o.key| <= 4057
      modifies this, sendBl
      ensures Now() == DealRequire(old(Now()), o)
    {
      hide GetDescriptor;
      Dispatch(o);
      if halted {
        return;
      }
      task := MustReceive;
      assert Now() == Begin(old(Now()), o);
      Receive();
      task := MustSend;
      Send();
      handled := handled + 1;
      task := Resting;
    }
  }

  class ClientHandler {
    const sendBl: array<byte>
    const recvBl: array<byte>
    var imageSize: u64
    var image: Option<Remote>
    var flush: Option<FlushType>
    var directWrite: bool
    var ret: int
    var waiting: bool
    var halted: bool
    ghost var asking: bool
    ghost var credits: nat
    ghost var pending: seq<seq<byte>>
    ghost var arrived: bool
    ghost var calls: nat

    ghost predicate Valid() {
      sendBl.Length == recvBl.Length == MSG_SIZE && sendBl != recvBl
    }

    ghost function Now(): Client
      reads this, sendBl, recvBl
    {
      Client(sendBl[..], recvBl[..], credits, pending, arrived, asking, waiting, calls, imageSize, image, flush, directWrite, ret, halted)
    }

    constructor (garbage: u64)
      ensures Valid() && fresh(sendBl) && fresh(recvBl)
      ensures credits == 0 && pending == [] && !arrived && !asking && !waiting && calls == 0 && !halted
      ensures image.None? && flush.None? && !directWrite
    {
      sendBl := new byte[MSG_SIZE];
      recvBl := new byte[MSG_SIZE];
      imageSize, image, flush, directWrite, ret, waiting, halted := garbage, None, None, false, 0, false, false;
      credits, pending, arrived, asking, calls := 0, [], false, false, 0;
    }

    /** `init_replica` and `close_replica` up to the wait: the receive is posted before the send. */
    method Start(r: Request)
      requires Valid() && Sendable(r)
      modifies this, sendBl
      ensures Now() == Launch(Prepare(old(Now()), r))
    {
      hide Encode;
      if r.InitRequest? {
        imageSize := r.info.cacheSize;
      }
      PutMessage(sendBl, RequestMessage(r));
      calls := calls + 1;
      waiting := true;
      credits := credits + 1;
      asking := true;
      assert Now() == Prepare(old(Now()), r);
      pending := pending + [sendBl[..]];
      asking := false;
    }

    /** Splits the descriptors at the region descriptor's size and reads both parts. */
    method ReadReply() returns (f: Offer)
      requires Valid()
      ensures f == ReadOffer(recvBl[..])
    {
      var it := new Codec.Iterator(recvBl[..]);
      var m := it.GetReply();
      if m.None? {
        return Unreadable;
      }
      if m.value.ty != INIT_SUCCEEDED {
        return Refused;
      }
      var d := m.value.desc;
      if d.mrDescSize + d.pcfgDescSize > |d.descriptors| {
        return Unreadable;
      }
      var direct: Option<bool> := None;
      if d.pcfgDescSize > 0 {
        direct := Some(d.descriptors[d.mrDescSize] != 0);
      }
      var mr := d.descriptors[..d.mrDescSize];
      f := if |mr| < 9 then NoRegion(direct) else Offer.Offer(direct, FromLE(mr[..8]), mr[9..]);
    }

    /** Applies the peer configuration and takes the region, then checks its size and sets the flush type. */
    method Take(f: Offer) returns (result: int)
      modifies this`image, this`flush, this`directWrite, this`halted
      ensures Now() == TakeOffer(old(Now()), f)
      ensures result == if f.Refused? || Accepts(old(Now()), f) then 0 else -1
    {
      if f.Unreadable? {
        halted := true;
        return -1;
      }
      if f.Refused? {
        return 0;
      }
      if f.direct.Some? {
        directWrite := f.direct.value;
      }
      if f.Offer? {
        image := Some(Remote(f.size, f.key));
      }
      if image.None? {
        halted := true;
        return -1;
      }
      if image.value.size < imageSize {
        return -1;
      }
      flush := if f.direct == Some(true) then Some(Persistent) else Some(Visibility);
      result := 0;
    }

    method UseRemoteDescriptor() returns (result: int)
      requires Valid()
      modifies this`image, this`flush, this`directWrite, this`halted
      ensures Now() == GetRemoteDescriptor(old(Now()))
      ensures var f := ReadOffer(recvBl[..]);
              result == if f.Refused? || Accepts(old(Now()), f) then 0 else -1
    {
      hide ReadOffer, TakeOffer;
      var f := ReadReply();
      result := Take(f);
    }

    /** The receive's callback: unless it throws, the wait is over. */
    method Finish(r: Request)
      requires Valid()
      modifies this
      ensures Now() == TakeReply(old(Now()), r)
    {
      hide GetRemoteDescriptor, DecodePlain, ReadOffer;
      match r {
        case InitRequest(_) =>
          var _ := UseRemoteDescriptor();
          assert Now() == GetRemoteDescriptor(old(Now()));
          arrived := false;
          if !halted {
            ret := 0;
            waiting := false;
          }
        case FinishRequest =>
          var it := new Codec.Iterator(recvBl[..]);
          var ty := it.GetPlain();
          arrived := false;
          if ty.None? {
            halted := true;
          } else {
            ret := if ty.value == FINISHED_SUCCEEDED then 0 else -1;
            waiting := false;
          }
      }
    }
  }
}
