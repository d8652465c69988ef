// Wide-to-narrow string conversion and the library's exception type.
module SiegeCommon {
  import opened Wrappers
  import opened Bytes
  import UtilsCommon

  /** Two-byte Windows wide characters. */
  type WideString = seq<U16>

  // ---------------------------------------------------------------------
  // wideStringToStdString
  // ---------------------------------------------------------------------

  /**
   * Keeps the low byte of each wide character, through a temporary buffer of
   * MaxTempStringLen chars: the result stops at the first character whose low
   * byte is zero, at the end of the string (its terminator), or after
   * MaxTempStringLen - 1 characters.
   */
  method WideStringToStdString(wStr: WideString) returns (str: seq<Byte>)
    ensures |str| <= |wStr| && |str| < UtilsCommon.MaxTempStringLen
    ensures forall i :: 0 <= i < |str| ==> str[i] == wStr[i] % 0x100 && str[i] != 0
    ensures |str| == |wStr| || |str| == UtilsCommon.MaxTempStringLen - 1 || wStr[|str|] % 0x100 == 0
  {
    if |wStr| == 0 {
      return [];
    }
    var temBuf := new Byte[UtilsCommon.MaxTempStringLen];
    var i := 0;
    while i < UtilsCommon.MaxTempStringLen - 1
      invariant 0 <= i <= |wStr| && i < UtilsCommon.MaxTempStringLen
      invariant forall k :: 0 <= k < i ==> temBuf[k] == wStr[k] % 0x100 && temBuf[k] != 0
    {
      // Past the last character the string yields its zero terminator.
      var c := if i < |wStr| then wStr[i] % 0x100 else 0;
      temBuf[i] := c;
      if c == 0 {
        break;
      }
      i := i + 1;
    }
    temBuf[i] := 0;
    str := temBuf[..i];
  }

  // ---------------------------------------------------------------------
  // Exception message storage
  // ---------------------------------------------------------------------

  /** Size of the message buffer, terminator included. */
  const MaxMessageLen := 1024

  /**
   * `strncpy(dst, src, n)` for a C string `src`: its characters up to `n`,
   * then zero padding up to `n`.
   */
  function Strncpy(src: seq<Byte>, n: nat): (dst: seq<Byte>)
    ensures |dst| == n
    ensures dst[..if |src| < n then |src| else n] == src[..if |src| < n then |src| else n]
    ensures forall i :: |src| <= i < n ==> dst[i] == 0
  {
    if |src| >= n then src[..n] else src + seq(n - |src|, _ => 0)
  }

  /** The C string a buffer holds, or None when no terminator is in it. */
  function CString(buf: seq<Byte>): (s: Option<seq<Byte>>)
    ensures s.Some? <==> 0 in buf
    ensures s.Some? ==> s.value == UntilNul(buf)
  {
    if 0 in buf then Some(UntilNul(buf)) else None
  }

  /** The buffer contents the constructor leaves, as the code is written. */
  function StoredMessageAsWritten(error: seq<Byte>): (buf: seq<Byte>)
    requires 0 !in error
    ensures |buf| == MaxMessageLen
  {
    Strncpy(error, MaxMessageLen)
  }

  /** A message of MaxMessageLen characters or more is left without a terminator. */
  lemma LongMessageUnterminated(error: seq<Byte>)
    requires 0 !in error && |error| >= MaxMessageLen
    ensures CString(StoredMessageAsWritten(error)) == None
  {
    assert StoredMessageAsWritten(error) == error[..MaxMessageLen];
  }

  /** A message shorter than the buffer is followed by zero padding, so it
      reads back whole. */
  lemma ShortMessageReadsBack(error: seq<Byte>)
    requires 0 !in error
    ensures |error| < MaxMessageLen ==> CString(StoredMessageAsWritten(error)) == Some(error)
  {
    if |error| < MaxMessageLen {
      var buf := StoredMessageAsWritten(error);
      assert buf[..|error|] == error;
      UntilNulOfTerminated(buf, |error|);
    }
  }

  /** The buffer contents with the copy limited to leave room for the terminator. */
  function StoredMessage(error: seq<Byte>): (buf: seq<Byte>)
    requires 0 !in error
    ensures |buf| == MaxMessageLen
  {
    Strncpy(error, MaxMessageLen - 1) + [0]
  }

  /** The stored message reads back as the given one, cut to MaxMessageLen - 1 characters. */
  lemma {:induction false} StoredMessageReadsBack(error: seq<Byte>)
    requires 0 !in error
    ensures CString(StoredMessage(error)) == Some(Truncated(error, MaxMessageLen - 1))
  {
    var buf := StoredMessage(error);
    var k := |Truncated(error, MaxMessageLen - 1)|;
    assert buf[..k] == Truncated(error, MaxMessageLen - 1);
    assert buf[k] == 0;
    UntilNulOfTerminated(buf, k);
  }

  function Truncated(s: seq<Byte>, n: nat): (t: seq<Byte>)
    ensures |t| <= n && |t| <= |s| && t == s[..|t|]
    ensures |t| == n || t == s
  {
    if |s| <= n then s else s[..n]
  }

  /** A buffer with no zero before index k and a zero at k holds the C string buf[..k]. */
  lemma UntilNulOfTerminated(buf: seq<Byte>, k: nat)
    requires k < |buf| && buf[k] == 0 && 0 !in buf[..k]
    ensures UntilNul(buf) == buf[..k]
  {
  }

  /** A zero-filled buffer holds the empty C string. */
  lemma ZeroBufferEmpty(n: nat)
    requires n > 0
    ensures UntilNul(seq(n, _ => 0 as Byte)) == []
  {
    UntilNulOfTerminated(seq(n, _ => 0 as Byte), 0);
  }

  /** The library's exception: a fixed buffer holding the message, copied as
      the code is written, so a long message fills it without a terminator. */
  class Exception {
    var errorMessage: seq<Byte>

    predicate Valid()
      reads this
    {
      |errorMessage| == MaxMessageLen
    }

    /** The message what() returns: the C string in the buffer, or None when
        the buffer holds no terminator and what() hands out a string that
        runs past it. */
    function What(): (msg: Option<seq<Byte>>)
      reads this
      requires Valid()
      ensures msg.Some? ==> |msg.value| < MaxMessageLen && 0 !in msg.value
      ensures msg.None? <==> 0 !in errorMessage
    {
      if 0 in errorMessage then
        UntilNulOfTerminated(errorMessage, |UntilNul(errorMessage)|);
        Some(UntilNul(errorMessage))
      else None
    }

    /** A default exception carries an empty message. */
    constructor ()
      ensures Valid() && What() == Some([])
    {
      errorMessage := seq(MaxMessageLen, _ => 0);
      ZeroBufferEmpty(MaxMessageLen);
    }

    /** From a C string, or from a null pointer (None): a message shorter
        than the buffer reads back whole; a longer one fills the buffer
        without a terminator. */
    constructor FromCString(error: Option<seq<Byte>>)
      requires error.Some? ==> 0 !in error.value
      ensures Valid()
      ensures error.None? ==> What() == Some([])
      ensures error.Some? ==> errorMessage == StoredMessageAsWritten(error.value)
      ensures error.Some? && |error.value| < MaxMessageLen ==> What() == Some(error.value)
      ensures error.Some? && |error.value| >= MaxMessageLen ==> What() == None
    {
      if error.Some? {
        errorMessage := StoredMessageAsWritten(error.value);
        ShortMessageReadsBack(error.value);
        if |error.value| >= MaxMessageLen {
          LongMessageUnterminated(error.value);
        }
      } else {
        errorMessage := seq(MaxMessageLen, _ => 0);
        ZeroBufferEmpty(MaxMessageLen);
      }
    }

    /** From a std::string, through its c_str(), which ends at its first NUL. */
    constructor FromString(error: seq<Byte>)
      ensures Valid()
      ensures errorMessage == StoredMessageAsWritten(UntilNul(error))
      ensures |UntilNul(error)| < MaxMessageLen ==> What() == Some(UntilNul(error))
      ensures |UntilNul(error)| >= MaxMessageLen ==> What() == None
    {
      errorMessage := StoredMessageAsWritten(UntilNul(error));
      ShortMessageReadsBack(UntilNul(error));
      if |UntilNul(error)| >= MaxMessageLen {
        LongMessageUnterminated(UntilNul(error));
      }
    }
  }
}
