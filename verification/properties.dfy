/** Properties of the transport that relate several calls or several inputs. */
module TransportProperties {
  import opened PhpValues
  import opened Mime
  import opened Payload
  import opened Events
  import opened MandrillTransport

  // ---------------------------------------------------------------------------
  // Recipients

  /** Flattening an address array distributes over concatenation. */
  lemma {:induction false} AddressEntriesAppend(a: AddressList, b: AddressList)
    ensures AddressEntries(a + b) == AddressEntries(a) + AddressEntries(b)
  {
    if a == [] {
      assert a + b == b;
    } else {
      assert (a + b)[1..] == a[1..] + b;
      AddressEntriesAppend(a[1..], b);
    }
  }

  /** fetchTo is the flattening of the To, Cc and Bcc arrays laid end to end:
      nothing is dropped, duplicated or reordered. */
  lemma FetchToFlattensAllHeaders(sent: SentMessage)
    ensures var m := sent.original;
      FetchTo(sent) == AddressEntries(m.to + m.cc + m.bcc)
  {
    var m := sent.original;
    AddressEntriesAppend(m.to, m.cc);
    AddressEntriesAppend(m.to + m.cc, m.bcc);
  }

  /** Taking keys distributes over concatenation of address arrays. */
  lemma KeysOfAppend(a: AddressList, b: AddressList)
    ensures KeysOf(a + b) == KeysOf(a) + KeysOf(b)
  {
  }

  /** getTo and fetchTo walk the same entries in the same order: position i of
      getTo is the key of the entry whose address is position i of fetchTo. */
  lemma GetToPairsWithFetchTo(sent: SentMessage)
    ensures var all := sent.original.to + sent.original.cc + sent.original.bcc;
      && |GetTo(sent)| == |FetchTo(sent)| == |all|
      && forall i :: 0 <= i < |all| ==>
           && GetTo(sent)[i] == all[i].key
           && FetchTo(sent)[i] == Recipient(all[i].addr.address, all[i].addr.name, RecipientTypeTo)
  {
    var m := sent.original;
    var all := m.to + m.cc + m.bcc;
    FetchToFlattensAllHeaders(sent);
    KeysOfAppend(m.to, m.cc);
    KeysOfAppend(m.to + m.cc, m.bcc);
    assert GetTo(sent) == KeysOf(m.to) + KeysOf(m.cc) + KeysOf(m.bcc);
    assert GetTo(sent) == KeysOf(all);
    assert FetchTo(sent) == AddressEntries(all);
  }

  /** The keys 0 .. n-1 as PHP integer keys. */
  function Indices(n: nat): seq<Key>
  {
    seq(n, i => IntKey(i))
  }

  /** The keys of a 0-indexed array are its positions. */
  lemma KeysOfListShaped(list: AddressList)
    requires ListShaped(list)
    ensures KeysOf(list) == Indices(|list|)
  {
  }

  /** For the 0-indexed arrays the mail library builds, getTo yields positions,
      not addresses: 0 .. |To|-1, then 0 .. |Cc|-1, then 0 .. |Bcc|-1. */
  lemma GetToOfListShapedHeaders(sent: SentMessage)
    requires ListShaped(sent.original.to) && ListShaped(sent.original.cc) && ListShaped(sent.original.bcc)
    ensures var m := sent.original;
      GetTo(sent) == Indices(|m.to|) + Indices(|m.cc|) + Indices(|m.bcc|)
  {
    var m := sent.original;
    KeysOfListShaped(m.to);
    KeysOfListShaped(m.cc);
    KeysOfListShaped(m.bcc);
    assert GetTo(sent) == KeysOf(m.to) + KeysOf(m.cc) + KeysOf(m.bcc);
  }

  // ---------------------------------------------------------------------------
  // Reply-To and sender

  /** For a 0-indexed reply-to array the Reply-To header is the integer key 0,
      whatever the addresses are. */
  lemma ReplyToOfListShapedIsZero(t: Transport, env: Env, sent: SentMessage)
    requires ListShaped(sent.original.replyTo) && |sent.original.replyTo| > 0
    ensures BuildArguments(t, env, sent).message.headers == Value(Headers(IntKey(0)))
  {
    assert sent.original.replyTo[0].key == IntKey(0);
  }

  /** Only the first key of the reply-to array reaches the request: replacing
      the array by any other with the same first key (or by another empty one)
      leaves the whole request unchanged. */
  lemma ReplyToOnlyFirstKeyMatters(t: Transport, env: Env, sent: SentMessage, other: AddressList)
    requires |other| > 0 <==> |sent.original.replyTo| > 0
    requires |other| > 0 ==> other[0].key == sent.original.replyTo[0].key
    ensures BuildArguments(t, env, SentMessage(sent.original.(replyTo := other))) == BuildArguments(t, env, sent)
  {
  }

  /** The message's own From header never reaches the request. */
  lemma SenderIgnored(t: Transport, env: Env, sent: SentMessage, from: AddressList)
    ensures BuildArguments(t, env, SentMessage(sent.original.(from := from))) == BuildArguments(t, env, sent)
  {
  }

  // ---------------------------------------------------------------------------
  // Attachments

  /** Collecting data parts distributes over concatenation, so qualifying parts
      keep their relative order and each yields exactly one attachment. */
  lemma {:induction false} CollectDataPartsAppend(a: seq<Part>, b: seq<Part>)
    ensures CollectDataParts(a + b) == CollectDataParts(a) + CollectDataParts(b)
  {
    if a == [] {
      assert a + b == b;
    } else {
      var head := if IsDataPart(a[0]) then [Raw(a[0])] else [];
      assert (a + b)[0] == a[0];
      calc {
        CollectDataParts(a + b);
        head + CollectDataParts((a + b)[1..]);
        { assert (a + b)[1..] == a[1..] + b; }
        head + CollectDataParts(a[1..] + b);
        { CollectDataPartsAppend(a[1..], b); }
        head + (CollectDataParts(a[1..]) + CollectDataParts(b));
        (head + CollectDataParts(a[1..])) + CollectDataParts(b);
        CollectDataParts(a) + CollectDataParts(b);
      }
    }
  }

  /** Every attachment comes from a DataPart of the message, and every DataPart
      of the message yields an attachment. */
  lemma {:induction false} CollectDataPartsMembers(parts: seq<Part>)
    ensures forall a :: a in CollectDataParts(parts) ==> exists i :: 0 <= i < |parts| && IsDataPart(parts[i]) && a == Raw(parts[i])
    ensures forall i :: 0 <= i < |parts| && IsDataPart(parts[i]) ==> Raw(parts[i]) in CollectDataParts(parts)
  {
    if parts != [] {
      CollectDataPartsMembers(parts[1..]);
      var r := CollectDataParts(parts);
      var tail := CollectDataParts(parts[1..]);
      forall a | a in r
        ensures exists i :: 0 <= i < |parts| && IsDataPart(parts[i]) && a == Raw(parts[i])
      {
        if a !in tail {
          assert IsDataPart(parts[0]) && a == Raw(parts[0]);
        } else {
          var j :| 0 <= j < |parts[1..]| && IsDataPart(parts[1..][j]) && a == Raw(parts[1..][j]);
          assert parts[j + 1] == parts[1..][j];
        }
      }
      forall i | 0 <= i < |parts| && IsDataPart(parts[i])
        ensures Raw(parts[i]) in r
      {
        if i > 0 {
          assert parts[i] == parts[1..][i - 1];
        }
      }
    }
  }

  /** Entry n of `r` is built from the DataPart at position idx[n] of `parts`. */
  ghost predicate PicksDataParts(parts: seq<Part>, r: seq<RawAttachment>, idx: seq<nat>)
  {
    && |idx| == |r|
    && forall n :: 0 <= n < |idx| ==> idx[n] < |parts| && IsDataPart(parts[idx[n]]) && r[n] == Raw(parts[idx[n]])
  }

  ghost predicate StrictlyIncreasing(idx: seq<nat>)
  {
    forall n, m :: 0 <= n < m < |idx| ==> idx[n] < idx[m]
  }

  /** Every DataPart position of `parts` occurs in `idx`. */
  ghost predicate CoversDataParts(parts: seq<Part>, idx: seq<nat>)
  {
    forall i :: 0 <= i < |parts| && IsDataPart(parts[i]) ==> i in idx
  }

  /** `r` is `parts` filtered to its DataParts and mapped by Raw, witnessed by
      `idx`: strictly increasing positions of `parts` that are exactly the
      DataPart positions, with entry n built from part idx[n]. */
  ghost predicate FiltersDataParts(parts: seq<Part>, r: seq<RawAttachment>, idx: seq<nat>)
  {
    PicksDataParts(parts, r, idx) && StrictlyIncreasing(idx) && CoversDataParts(parts, idx)
  }

  function Shift(s: seq<nat>): (r: seq<nat>)
    ensures |r| == |s| && forall n :: 0 <= n < |s| ==> r[n] == s[n] + 1
    ensures StrictlyIncreasing(s) ==> StrictlyIncreasing(r)
  {
    seq(|s|, n requires 0 <= n < |s| => s[n] + 1)
  }

  /** The positions of the DataParts of `parts`, in increasing order. */
  function DataPartPositions(parts: seq<Part>): seq<nat>
  {
    if parts == [] then []
    else (if IsDataPart(parts[0]) then [0] else []) + Shift(DataPartPositions(parts[1..]))
  }

  /** A DataPart in front adds its entry in front and position 0. */
  lemma PickDataPart(parts: seq<Part>, r: seq<RawAttachment>, idx: seq<nat>)
    requires |parts| > 0 && IsDataPart(parts[0])
    requires PicksDataParts(parts[1..], r, idx)
    ensures PicksDataParts(parts, [Raw(parts[0])] + r, [0] + Shift(idx))
  {
    var r', idx' := [Raw(parts[0])] + r, [0] + Shift(idx);
    forall n | 0 < n < |idx'|
      ensures idx'[n] < |parts| && IsDataPart(parts[idx'[n]]) && r'[n] == Raw(parts[idx'[n]])
    {
      assert idx'[n] == idx[n - 1] + 1 && r'[n] == r[n - 1];
      assert parts[idx'[n]] == parts[1..][idx[n - 1]];
    }
  }

  /** Any other part in front adds nothing and only shifts the positions. */
  lemma PickOtherPart(parts: seq<Part>, r: seq<RawAttachment>, idx: seq<nat>)
    requires |parts| > 0
    requires PicksDataParts(parts[1..], r, idx)
    ensures PicksDataParts(parts, r, Shift(idx))
  {
    var idx' := Shift(idx);
    forall n | 0 <= n < |idx'|
      ensures idx'[n] < |parts| && IsDataPart(parts[idx'[n]]) && r[n] == Raw(parts[idx'[n]])
    {
      assert parts[idx'[n]] == parts[1..][idx[n]];
    }
  }

  lemma {:induction false} PositionsPick(parts: seq<Part>)
    ensures PicksDataParts(parts, CollectDataParts(parts), DataPartPositions(parts))
  {
    if parts != [] {
      var tail := parts[1..];
      PositionsPick(tail);
      if IsDataPart(parts[0]) {
        PickDataPart(parts, CollectDataParts(tail), DataPartPositions(tail));
      } else {
        PickOtherPart(parts, CollectDataParts(tail), DataPartPositions(tail));
      }
    }
  }

  /** Putting 0 in front of shifted increasing positions keeps them increasing. */
  lemma IncreasingFromZero(idx: seq<nat>)
    requires StrictlyIncreasing(idx)
    ensures StrictlyIncreasing([0] + Shift(idx))
  {
    var shifted := Shift(idx);
    var idx' := [0] + shifted;
    forall n, m | 0 <= n < m < |idx'|
      ensures idx'[n] < idx'[m]
    {
      assert idx'[m] == shifted[m - 1];
      if n > 0 { assert idx'[n] == shifted[n - 1]; }
    }
  }

  lemma {:induction false} PositionsIncrease(parts: seq<Part>)
    ensures StrictlyIncreasing(DataPartPositions(parts))
  {
    if parts != [] {
      PositionsIncrease(parts[1..]);
      if IsDataPart(parts[0]) {
        IncreasingFromZero(DataPartPositions(parts[1..]));
      }
    }
  }

  lemma {:induction false} PositionsCover(parts: seq<Part>)
    ensures CoversDataParts(parts, DataPartPositions(parts))
  {
    if parts != [] {
      var tail := parts[1..];
      PositionsCover(tail);
      var rest := DataPartPositions(tail);
      var idx := DataPartPositions(parts);
      var h := if IsDataPart(parts[0]) then 1 else 0;
      forall i | 0 <= i < |parts| && IsDataPart(parts[i])
        ensures i in idx
      {
        if i > 0 {
          assert tail[i - 1] == parts[i];
          var n :| 0 <= n < |rest| && rest[n] == i - 1;
          assert idx[n + h] == i;
        } else {
          assert idx[0] == 0;
        }
      }
    }
  }

  /** fetchAttachments keeps exactly the DataParts, in their order: each entry
      is built from a DataPart of the message, each DataPart yields an entry,
      and the entries follow the positions of their parts. */
  lemma FetchAttachmentsFiltersInOrder(sent: SentMessage)
    ensures var parts, r := sent.original.attachments, FetchAttachments(sent);
      forall a :: a in r ==> exists i :: 0 <= i < |parts| && IsDataPart(parts[i]) && a == Raw(parts[i])
    ensures var parts, r := sent.original.attachments, FetchAttachments(sent);
      forall i :: 0 <= i < |parts| && IsDataPart(parts[i]) ==> Raw(parts[i]) in r
    ensures exists idx :: FiltersDataParts(sent.original.attachments, FetchAttachments(sent), idx)
  {
    var parts := sent.original.attachments;
    CollectDataPartsMembers(parts);
    PositionsPick(parts);
    PositionsIncrease(parts);
    PositionsCover(parts);
    assert FiltersDataParts(parts, FetchAttachments(sent), DataPartPositions(parts));
  }

  /** When every part is a DataPart, attachment i is built from part i. */
  lemma {:induction false} CollectAllDataParts(parts: seq<Part>)
    requires forall i :: 0 <= i < |parts| ==> IsDataPart(parts[i])
    ensures |CollectDataParts(parts)| == |parts|
    ensures forall i :: 0 <= i < |parts| ==> CollectDataParts(parts)[i] == Raw(parts[i])
  {
    if parts != [] {
      CollectAllDataParts(parts[1..]);
    }
  }

  /** With only DataParts attached, `message.attachments` lists every one of
      them, in order, as `{type, name, base64(body)}`. */
  lemma AttachmentsOfDataParts(t: Transport, env: Env, sent: SentMessage)
    requires |sent.original.attachments| > 0
    requires forall i :: 0 <= i < |sent.original.attachments| ==> IsDataPart(sent.original.attachments[i])
    ensures var parts := sent.original.attachments;
      var field := BuildArguments(t, env, sent).message.attachments;
      && field.Value?
      && |field.value| == |parts|
      && forall i :: 0 <= i < |parts| ==>
           field.value[i] == Attachment(parts[i].contentType, parts[i].filename, Base64Of(parts[i].body))
  {
    var parts := sent.original.attachments;
    CollectAllDataParts(parts);
    assert parts[0] in parts;
  }

  /** A single non-DataPart collects to nothing. */
  lemma SkipOne(p: Part)
    requires !IsDataPart(p)
    ensures CollectDataParts([p]) == []
  {
    assert [p][1..] == [];
  }

  /** Inserting a non-DataPart anywhere leaves the collected attachments unchanged. */
  lemma CollectSkipsNonDataPart(parts: seq<Part>, k: nat, p: Part)
    requires k <= |parts|
    requires !IsDataPart(p)
    ensures CollectDataParts(parts[..k] + [p] + parts[k..]) == CollectDataParts(parts)
  {
    var front, back := parts[..k], parts[k..];
    calc {
      CollectDataParts(front + [p] + back);
      { CollectDataPartsAppend(front + [p], back); }
      CollectDataParts(front + [p]) + CollectDataParts(back);
      { CollectDataPartsAppend(front, [p]); SkipOne(p); }
      CollectDataParts(front) + CollectDataParts(back);
      { CollectDataPartsAppend(front, back); }
      CollectDataParts(front + back);
      { assert front + back == parts; }
      CollectDataParts(parts);
    }
  }

  /** A part whose class is not exactly DataPart adds nothing, wherever it sits. */
  lemma NonDataPartSkipped(t: Transport, env: Env, sent: SentMessage, k: nat, p: Part)
    requires k <= |sent.original.attachments|
    requires !IsDataPart(p)
    ensures var parts := sent.original.attachments;
      var inserted := SentMessage(sent.original.(attachments := parts[..k] + [p] + parts[k..]));
      BuildArguments(t, env, inserted) == BuildArguments(t, env, sent)
  {
    var parts := sent.original.attachments;
    var inserted := SentMessage(sent.original.(attachments := parts[..k] + [p] + parts[k..]));
    CollectSkipsNonDataPart(parts, k, p);
    assert FetchAttachments(inserted) == FetchAttachments(sent);
    assert FetchTo(inserted) == FetchTo(sent);
  }

  // ---------------------------------------------------------------------------
  // Outcome

  /** The HTTP status is never looked at: an error status with a JSON body is
      handled exactly like a success. */
  lemma HttpStatusIgnored<D>(t: Transport, env: Env, sent: SentMessage, exchange: Exchange, status: int,
                             strerror: int -> string, decode: string -> D)
    ensures SendMandrillRequest(t, env, sent, exchange.(httpStatus := status), strerror, decode)
         == SendMandrillRequest(t, env, sent, exchange, strerror, decode)
  {
  }

  /** A timed-out request (curl error 28) publishes only a MandrillError event
      with the client's message, and throws that same message. */
  lemma TimeoutScenario<D>(t: Transport, env: Env, sent: SentMessage, response: string, status: int,
                           strerror: int -> string, decode: string -> D)
    ensures var o := SendMandrillRequest(t, env, sent, Exchange(28, status, response), strerror, decode);
      && o.events == [MandrillError(sent, BuildArguments(t, env, sent), strerror(28))]
      && o.result == Throws(strerror(28))
  {
  }

  /** One To recipient, normal priority, no reply-to and no attachments: the
      request has exactly the fixed fields and that recipient, and no
      `headers`, `important` or `attachments` field. */
  lemma SingleRecipientScenario(key: Nullable<string>, env: Env)
    ensures var sent := SentMessage(Email(
        Value("Hi"), Value("<p>Hi</p>"), [], [Entry(IntKey(0), Address("a@x.com", "A"))], [], [], [],
        Value(PriorityNormal), []));
      BuildArguments(Transport(key), env, sent)
        == Arguments(key,
             Message(Value("<p>Hi</p>"), Value("Hi"), env.mailFromAddress, env.mailFromName.Coalesce(DefaultFromName),
                     [Recipient("a@x.com", "A", "to")], Null, Null, Null),
             true)
  {
  }
}
