/** The `ar` framing of a Debian package and the choice of its control member. */
module DebianArchive {
  import opened Results
  import opened Text

  /** The eight bytes of "!<arch>" and a line feed. */
  const MAGIC: seq<byte> := [0x21, 0x3C, 0x61, 0x72, 0x63, 0x68, 0x3E, 0x0A]

  const HEADER: nat := 60

  const MAX_CONTROL: nat := 2 * 1024 * 1024

  /**
   * What the standard library does: the decoded name field without padding and final slash, the decimal
   * number, which may be negative, and the control fields inside a member of the given name.
   */
  datatype Reader<!Control> = Reader(name: seq<byte> -> Option<string>, number: seq<byte> -> Option<int>,
                                     unpack: (string, seq<byte>) -> Option<Control>)

  /** One member; the padding byte after an odd body may be anything. */
  datatype Member = Member(header: seq<byte>, body: seq<byte>, padding: seq<byte>)

  predicate HeaderValid<C>(reader: Reader<C>, header: seq<byte>) {
    && |header| == HEADER && header[58..] == [0x60, 0x0A]
    && reader.name(header[..16]).Some? && reader.number(header[48..58]).Some?
  }

  predicate MemberValid<C>(reader: Reader<C>, m: Member) {
    && HeaderValid(reader, m.header) && reader.number(m.header[48..58]).value == |m.body|
    && |m.padding| == |m.body| % 2
  }

  predicate AllValid<C>(reader: Reader<C>, members: seq<Member>) {
    forall i | 0 <= i < |members| :: MemberValid(reader, members[i])
  }

  function Bytes(m: Member): seq<byte> { m.header + m.body + m.padding }

  function Encode(members: seq<Member>): seq<byte> {
    if members == [] then [] else Bytes(members[0]) + Encode(members[1..])
  }

  // ---------- splitting ----------

  /** The member at the front, when it is whole. */
  function Next<C>(reader: Reader<C>, bytes: seq<byte>): (m: Option<Member>)
    ensures m.Some? ==> MemberValid(reader, m.value) && HEADER <= |Bytes(m.value)| <= |bytes|
    ensures m.Some? ==> bytes[..|Bytes(m.value)|] == Bytes(m.value)
  {
    if |bytes| < HEADER || !HeaderValid(reader, bytes[..HEADER]) then None
    else
      var n := reader.number(bytes[..HEADER][48..58]).value;
      if n < 0 || HEADER + n + n % 2 > |bytes| then None
      else Some(Member(bytes[..HEADER], bytes[HEADER..HEADER + n], bytes[HEADER + n..HEADER + n + n % 2]))
  }

  function Split<C>(reader: Reader<C>, bytes: seq<byte>): Option<seq<Member>> {
    if bytes == [] then Some([])
    else
      match Next(reader, bytes)
      case None => None
      case Some(m) =>
        match Split(reader, bytes[|Bytes(m)|..])
        case None => None
        case Some(rest) => Some([m] + rest)
  }

  lemma NextEncoded<C>(reader: Reader<C>, m: Member, rest: seq<byte>)
    requires MemberValid(reader, m)
    ensures Next(reader, Bytes(m) + rest) == Some(m)
  {
    var bytes := Bytes(m) + rest;
    var n := |m.body|;
    assert bytes[..HEADER] == m.header;
    assert bytes[HEADER..HEADER + n] == m.body;
    assert bytes[HEADER + n..HEADER + n + n % 2] == m.padding;
  }

  lemma {:induction false} SplitEncoded<C>(reader: Reader<C>, members: seq<Member>)
    requires AllValid(reader, members)
    ensures Split(reader, Encode(members)) == Some(members)
  {
    hide Next, Bytes, MemberValid;
    if members != [] {
      var rest := Encode(members[1..]);
      SplitEncoded(reader, members[1..]);
      NextEncoded(reader, members[0], rest);
      MemberNotEmpty(reader, members[0]);
      var bytes := Bytes(members[0]) + rest;
      assert Encode(members) == bytes && bytes != [] && bytes[|Bytes(members[0])|..] == rest;
      assert members == [members[0]] + members[1..];
    }
  }

  lemma MemberNotEmpty<C>(reader: Reader<C>, m: Member)
    requires MemberValid(reader, m)
    ensures Bytes(m) != []
  {
  }

  lemma {:induction false} EncodeSplit<C>(reader: Reader<C>, bytes: seq<byte>)
    requires Split(reader, bytes).Some?
    ensures var members := Split(reader, bytes).value; AllValid(reader, members) && Encode(members) == bytes
  {
    hide Bytes, MemberValid;
    if bytes != [] {
      var m := Next(reader, bytes).value;
      EncodeSplit(reader, bytes[|Bytes(m)|..]);
      assert bytes == Bytes(m) + bytes[|Bytes(m)|..];
    }
  }

  /** Splitting and encoding are inverse: the members are determined by the bytes, padding included. */
  lemma SplitExactly<C>(reader: Reader<C>, bytes: seq<byte>, members: seq<Member>)
    ensures Split(reader, bytes) == Some(members) <==> AllValid(reader, members) && Encode(members) == bytes
  {
    if AllValid(reader, members) && Encode(members) == bytes {
      SplitEncoded(reader, members);
    }
    if Split(reader, bytes) == Some(members) {
      EncodeSplit(reader, bytes);
    }
  }

  // ---------- the control member ----------

  function NameOf<C>(reader: Reader<C>, m: Member): string
    requires HeaderValid(reader, m.header)
  {
    reader.name(m.header[..16]).value
  }

  predicate IsControl<C>(reader: Reader<C>, m: Member) {
    HeaderValid(reader, m.header) && "control.tar" <= NameOf(reader, m)
  }

  function Controls<C>(reader: Reader<C>, members: seq<Member>): (r: seq<Member>)
    ensures forall i | 0 <= i < |r| :: HeaderValid(reader, r[i].header)
  {
    if members == [] then []
    else
      var last := members[|members| - 1];
      Controls(reader, members[..|members| - 1]) + if IsControl(reader, last) then [last] else []
  }

  /** The control fields: there is one control member, it is not oversized, and it can be unpacked. */
  function Chosen<C>(reader: Reader<C>, members: seq<Member>): Option<C> {
    var controls := Controls(reader, members);
    if |controls| == 1 && |controls[0].body| <= MAX_CONTROL then
      reader.unpack(NameOf(reader, controls[0]), controls[0].body)
    else None
  }

  function Control<C>(reader: Reader<C>, data: seq<byte>): Option<C> {
    if !(MAGIC <= data) then None
    else
      match Split(reader, data[|MAGIC|..])
      case None => None
      case Some(members) => Chosen(reader, members)
  }

  /** The fields are returned for exactly the padded concatenations of members with one good control member. */
  lemma ControlExactly<C(!new)>(reader: Reader<C>, data: seq<byte>, control: C)
    ensures Control(reader, data) == Some(control)
      <==> exists members :: AllValid(reader, members) && data == MAGIC + Encode(members)
                             && Chosen(reader, members) == Some(control)
  {
    hide Split, Chosen, AllValid, Encode;
    if Control(reader, data) == Some(control) {
      var members := Split(reader, data[|MAGIC|..]).value;
      SplitExactly(reader, data[|MAGIC|..], members);
      assert data == MAGIC + Encode(members);
    }
    if members :| AllValid(reader, members) && data == MAGIC + Encode(members) && Chosen(reader, members) == Some(control) {
      assert data[|MAGIC|..] == Encode(members);
      SplitExactly(reader, data[|MAGIC|..], members);
    }
  }

  lemma {:induction false} ControlsConcat<C>(reader: Reader<C>, a: seq<Member>, b: seq<Member>)
    ensures Controls(reader, a + b) == Controls(reader, a) + Controls(reader, b)
    decreases |b|
  {
    hide IsControl;
    if b == [] {
      assert a + b == a;
    } else {
      var n := |b| - 1;
      assert (a + b)[..|a + b| - 1] == a + b[..n] && (a + b)[|a + b| - 1] == b[n];
      ControlsConcat(reader, a, b[..n]);
    }
  }

  /** Member `i`, and no other, has a name that marks the control archive. */
  ghost predicate OnlyControl<C>(reader: Reader<C>, members: seq<Member>, i: nat) {
    i < |members| && forall j | 0 <= j < |members| :: IsControl(reader, members[j]) <==> j == i
  }

  lemma {:induction false} NoneControl<C>(reader: Reader<C>, members: seq<Member>)
    ensures Controls(reader, members) == [] <==> forall j | 0 <= j < |members| :: !IsControl(reader, members[j])
  {
    hide IsControl;
    if members != [] {
      NoneControl(reader, members[..|members| - 1]);
    }
  }

  lemma ControlAt<C>(reader: Reader<C>, members: seq<Member>, i: nat)
    requires OnlyControl(reader, members, i)
    ensures Controls(reader, members) == [members[i]]
  {
    hide IsControl;
    var a, b := members[..i], members[i + 1..];
    NoneControl(reader, a);
    NoneControl(reader, b);
    assert members == a + [members[i]] + b;
    ControlsConcat(reader, a + [members[i]], b);
    ControlsStep(reader, a, members[i]);
  }

  lemma {:induction false} ControlIndex<C>(reader: Reader<C>, members: seq<Member>) returns (i: nat)
    requires |Controls(reader, members)| == 1
    ensures OnlyControl(reader, members, i)
  {
    hide IsControl;
    var front := members[..|members| - 1];
    if IsControl(reader, members[|members| - 1]) {
      NoneControl(reader, front);
      assert forall j | 0 <= j < |front| :: !IsControl(reader, front[j]) && front[j] == members[j];
      i := |members| - 1;
    } else {
      i := ControlIndex(reader, front);
      assert forall j | 0 <= j < |front| :: front[j] == members[j];
    }
  }

  /** What a valid member is, byte by byte, and when it is the control archive. */
  lemma MemberMeans<C>(reader: Reader<C>, m: Member)
    ensures MemberValid(reader, m) <==>
      && |m.header| == 60 && m.header[58] == 0x60 && m.header[59] == 0x0A
      && reader.name(m.header[..16]).Some? && reader.number(m.header[48..58]) == Some(|m.body|)
      && |m.padding| == (if |m.body| % 2 == 0 then 0 else 1)
    ensures MemberValid(reader, m) ==>
      (IsControl(reader, m) <==> "control.tar" <= reader.name(m.header[..16]).value)
  {
    if |m.header| == 60 {
      assert m.header[58..] == [m.header[58], m.header[59]];
    }
  }

  /** The data are these members, and member `i` unpacks to the control fields. */
  ghost predicate HoldsControl<C(!new)>(reader: Reader<C>, data: seq<byte>, members: seq<Member>, i: nat, control: C) {
    && AllValid(reader, members) && data == [0x21, 0x3C, 0x61, 0x72, 0x63, 0x68, 0x3E, 0x0A] + Encode(members)
    && OnlyControl(reader, members, i) && |members[i].body| <= 2 * 1024 * 1024
    && reader.unpack(reader.name(members[i].header[..16]).value, members[i].body) == Some(control)
  }

  /** Fields are returned for one control member of at most two mebibytes that can be unpacked, wherever it stands. */
  lemma ControlIsUnpacked<C(!new)>(reader: Reader<C>, data: seq<byte>, control: C)
    ensures Control(reader, data) == Some(control)
      <==> exists members, i :: HoldsControl(reader, data, members, i, control)
  {
    ControlExactly(reader, data, control);
    hide Control, Encode, Controls, IsControl, MemberValid;
    if members :| AllValid(reader, members) && data == MAGIC + Encode(members) && Chosen(reader, members) == Some(control) {
      var i := ControlIndex(reader, members);
      ControlAt(reader, members, i);
      assert HoldsControl(reader, data, members, i, control);
    }
    if members, i :| HoldsControl(reader, data, members, i, control) {
      ControlAt(reader, members, i);
      assert Chosen(reader, members) == Some(control);
    }
  }

  /** The splitting of all bytes, once some members are split off. */
  ghost predicate Follows(whole: Option<seq<Member>>, done: seq<Member>, rest: Option<seq<Member>>) {
    match rest
    case None => whole == None
    case Some(members) => whole == Some(done + members)
  }

  lemma FollowsStep<C>(reader: Reader<C>, whole: Option<seq<Member>>, done: seq<Member>, bytes: seq<byte>)
    requires bytes != [] && Follows(whole, done, Split(reader, bytes))
    ensures match Next(reader, bytes)
      case None => whole == None
      case Some(m) => Follows(whole, done + [m], Split(reader, bytes[|Bytes(m)|..]))
  {
    hide Next;
    var next := Next(reader, bytes);
    if next.Some? {
      var rest := Split(reader, bytes[|Bytes(next.value)|..]);
      if rest.Some? {
        assert done + ([next.value] + rest.value) == done + [next.value] + rest.value;
      }
    }
  }

  /** A second control member, or an oversized or unreadable first one, spoils the archive. */
  lemma Spoiled<C>(reader: Reader<C>, whole: Option<seq<Member>>, done: seq<Member>, rest: Option<seq<Member>>)
    requires Follows(whole, done, rest)
    requires |Controls(reader, done)| > 1 || (|Controls(reader, done)| == 1 && Chosen(reader, done) == None)
    ensures whole.Some? ==> Chosen(reader, whole.value) == None
  {
    if rest.Some? {
      ControlsConcat(reader, done, rest.value);
    }
  }

  lemma ControlsStep<C>(reader: Reader<C>, done: seq<Member>, m: Member)
    ensures Controls(reader, done + [m]) == Controls(reader, done) + if IsControl(reader, m) then [m] else []
  {
    assert (done + [m])[..|done|] == done;
  }

  method DebControl<C>(reader: Reader<C>, data: seq<byte>) returns (r: Option<C>)
    ensures r == Control(reader, data)
  {
    hide Split, Controls;
    if !(MAGIC <= data) {
      return None;
    }
    var offset, control: Option<C> := 8, None;
    ghost var whole, done: seq<Member> := Split(reader, data[8..]), [];
    NoControls(reader);
    FollowsAll(whole);
    while offset < |data|
      invariant 8 <= offset && whole == Split(reader, data[8..])
      invariant offset <= |data| ==> Follows(whole, done, Split(reader, data[offset..]))
      invariant offset > |data| ==> whole == None
      invariant |Controls(reader, done)| == if control.Some? then 1 else 0
      invariant Chosen(reader, done) == control
      decreases |data| - offset
    {
      ghost var rest := data[offset..];
      FollowsStep(reader, whole, done, rest);
      if offset + HEADER > |data| {
        return None;
      }
      var header := data[offset..offset + HEADER];
      assert header == rest[..HEADER];
      if !HeaderValid(reader, header) {
        return None;
      }
      var name, length := reader.name(header[..16]).value, reader.number(header[48..58]).value;
      if length < 0 || offset + HEADER + length > |data| {
        return None;
      }
      var body := data[offset + HEADER..offset + HEADER + length];
      assert body == rest[HEADER..HEADER + length];
      ghost var next := Next(reader, rest);
      ghost var m := if next.Some? then next.value else Member(header, body, []);
      ControlsStep(reader, done, m);
      if "control.tar" <= name {
        if control.Some? || length > MAX_CONTROL {
          if next.Some? {
            Spoiled(reader, whole, done + [m], Split(reader, rest[|Bytes(m)|..]));
          }
          return None;
        }
        control := reader.unpack(name, body);
        if control.None? {
          if next.Some? {
            Spoiled(reader, whole, done + [m], Split(reader, rest[|Bytes(m)|..]));
          }
          return None;
        }
      }
      done := done + [m];
      offset := offset + HEADER + length + length % 2;
      assert next.Some? ==> data[offset..] == rest[|Bytes(m)|..];
    }
    SplitNothing(reader);
    assert offset == |data| ==> data[offset..] == [] && done + [] == done;
    if control.None? || offset != |data| {
      return None;
    }
    return control;
  }

  lemma FollowsAll(whole: Option<seq<Member>>)
    ensures Follows(whole, [], whole)
  {
    assert whole.Some? ==> [] + whole.value == whole.value;
  }

  lemma NoControls<C>(reader: Reader<C>)
    ensures Controls(reader, []) == []
  {
  }

  lemma SplitNothing<C>(reader: Reader<C>)
    ensures Split(reader, []) == Some([])
  {
  }
}
