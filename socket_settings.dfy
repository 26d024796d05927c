/**
 * Socket settings: an immutable value with five optional options. A buffer
 * size is unset when it holds -1; a flag is a byte that is -1 when unset,
 * 1 for true and 0 for false. Each builder returns a copy with one option set.
 */
module SocketSettingsModel {
  import opened Base

  const DefInt: int := -1
  const DefBool: int := -1
  const True: int := 1
  const False: int := 0

  /** `checkState` failing in a getter whose option is unset. */
  datatype StateError = IllegalState

  datatype SocketSettings = SocketSettings(
    sendBufferSize: int,
    receiveBufferSize: int,
    keepAlive: int,
    reuseAddress: int,
    tcpNoDelay: int)

  /** The default settings: every option unset. */
  function Default(): (s: SocketSettings)
    ensures !HasSendBufferSize(s) && !HasReceiveBufferSize(s)
    ensures !HasKeepAlive(s) && !HasReuseAddress(s) && !HasTcpNoDelay(s)
  {
    SocketSettings(DefInt, DefInt, DefBool, DefBool, DefBool)
  }

  function FlagByte(b: bool): int {
    if b then True else False
  }

  // ---------------------------------------------------------------- builders

  /** `sendBufferSize(size)`: the option is set unless `size` is the -1 sentinel; no other option changes. */
  function WithSendBufferSize(s: SocketSettings, size: int): (r: SocketSettings)
    ensures HasSendBufferSize(r) <==> size != DefInt
    ensures HasReceiveBufferSize(r) == HasReceiveBufferSize(s) && HasKeepAlive(r) == HasKeepAlive(s)
    ensures HasReuseAddress(r) == HasReuseAddress(s) && HasTcpNoDelay(r) == HasTcpNoDelay(s)
  {
    s.(sendBufferSize := size)
  }

  /** `receiveBufferSize(size)`: the option is set unless `size` is the -1 sentinel; no other option changes. */
  function WithReceiveBufferSize(s: SocketSettings, size: int): (r: SocketSettings)
    ensures HasReceiveBufferSize(r) <==> size != DefInt
    ensures HasSendBufferSize(r) == HasSendBufferSize(s) && HasKeepAlive(r) == HasKeepAlive(s)
    ensures HasReuseAddress(r) == HasReuseAddress(s) && HasTcpNoDelay(r) == HasTcpNoDelay(s)
  {
    s.(receiveBufferSize := size)
  }

  /** `keepAlive(b)`: the flag is always set afterwards; no other option changes. */
  function WithKeepAlive(s: SocketSettings, keepAlive: bool): (r: SocketSettings)
    ensures HasKeepAlive(r)
    ensures HasSendBufferSize(r) == HasSendBufferSize(s) && HasReceiveBufferSize(r) == HasReceiveBufferSize(s)
    ensures HasReuseAddress(r) == HasReuseAddress(s) && HasTcpNoDelay(r) == HasTcpNoDelay(s)
  {
    s.(keepAlive := FlagByte(keepAlive))
  }

  /** `reuseAddress(b)`: the flag is always set afterwards; no other option changes. */
  function WithReuseAddress(s: SocketSettings, reuseAddress: bool): (r: SocketSettings)
    ensures HasReuseAddress(r)
    ensures HasSendBufferSize(r) == HasSendBufferSize(s) && HasReceiveBufferSize(r) == HasReceiveBufferSize(s)
    ensures HasKeepAlive(r) == HasKeepAlive(s) && HasTcpNoDelay(r) == HasTcpNoDelay(s)
  {
    s.(reuseAddress := FlagByte(reuseAddress))
  }

  /** `tcpNoDelay(b)`: the flag is always set afterwards; no other option changes. */
  function WithTcpNoDelay(s: SocketSettings, tcpNoDelay: bool): (r: SocketSettings)
    ensures HasTcpNoDelay(r)
    ensures HasSendBufferSize(r) == HasSendBufferSize(s) && HasReceiveBufferSize(r) == HasReceiveBufferSize(s)
    ensures HasKeepAlive(r) == HasKeepAlive(s) && HasReuseAddress(r) == HasReuseAddress(s)
  {
    s.(tcpNoDelay := FlagByte(tcpNoDelay))
  }

  // ---------------------------------------------------------------- queries

  // An option is set exactly when resetting it to its sentinel would change the settings.

  predicate HasSendBufferSize(s: SocketSettings): (r: bool)
    ensures r <==> s != s.(sendBufferSize := DefInt)
  { s.sendBufferSize != DefInt }

  predicate HasReceiveBufferSize(s: SocketSettings): (r: bool)
    ensures r <==> s != s.(receiveBufferSize := DefInt)
  { s.receiveBufferSize != DefInt }

  predicate HasKeepAlive(s: SocketSettings): (r: bool)
    ensures r <==> s != s.(keepAlive := DefBool)
  { s.keepAlive != DefBool }

  predicate HasReuseAddress(s: SocketSettings): (r: bool)
    ensures r <==> s != s.(reuseAddress := DefBool)
  { s.reuseAddress != DefBool }

  predicate HasTcpNoDelay(s: SocketSettings): (r: bool)
    ensures r <==> s != s.(tcpNoDelay := DefBool)
  { s.tcpNoDelay != DefBool }

  /** `getSendBufferSize`: the size, or the state error when it is unset. */
  function GetSendBufferSize(s: SocketSettings): (r: Result<int, StateError>)
    ensures r.Ok? <==> HasSendBufferSize(s)
    ensures r.Ok? ==> r.value == s.sendBufferSize
  {
    if HasSendBufferSize(s) then Ok(s.sendBufferSize) else Err(IllegalState)
  }

  function GetReceiveBufferSize(s: SocketSettings): (r: Result<int, StateError>)
    ensures r.Ok? <==> HasReceiveBufferSize(s)
    ensures r.Ok? ==> r.value == s.receiveBufferSize
  {
    if HasReceiveBufferSize(s) then Ok(s.receiveBufferSize) else Err(IllegalState)
  }

  /** `getKeepAlive`: any set byte but 0 reads as true. */
  function GetKeepAlive(s: SocketSettings): (r: Result<bool, StateError>)
    ensures r.Ok? <==> HasKeepAlive(s)
    ensures r.Ok? ==> (r.value <==> s.keepAlive != False)
  {
    if HasKeepAlive(s) then Ok(s.keepAlive != False) else Err(IllegalState)
  }

  function GetReuseAddress(s: SocketSettings): (r: Result<bool, StateError>)
    ensures r.Ok? <==> HasReuseAddress(s)
    ensures r.Ok? ==> (r.value <==> s.reuseAddress != False)
  {
    if HasReuseAddress(s) then Ok(s.reuseAddress != False) else Err(IllegalState)
  }

  function GetTcpNoDelay(s: SocketSettings): (r: Result<bool, StateError>)
    ensures r.Ok? <==> HasTcpNoDelay(s)
    ensures r.Ok? ==> (r.value <==> s.tcpNoDelay != False)
  {
    if HasTcpNoDelay(s) then Ok(s.tcpNoDelay != False) else Err(IllegalState)
  }

  // ---------------------------------------------------------------- properties

  /** Every getter of the default settings fails. */
  lemma DefaultGettersFail()
    ensures GetSendBufferSize(Default()).Err? && GetReceiveBufferSize(Default()).Err?
    ensures GetKeepAlive(Default()).Err? && GetReuseAddress(Default()).Err? && GetTcpNoDelay(Default()).Err?
  {
  }

  /** A flag set by its builder reads back as the same value, whatever it was before. */
  lemma FlagRoundTrip(s: SocketSettings, b: bool)
    ensures GetKeepAlive(WithKeepAlive(s, b)) == Ok(b)
    ensures GetReuseAddress(WithReuseAddress(s, b)) == Ok(b)
    ensures GetTcpNoDelay(WithTcpNoDelay(s, b)) == Ok(b)
  {
  }

  /** A buffer size other than -1 reads back as itself. */
  lemma SizeRoundTrip(s: SocketSettings, size: int)
    requires size != DefInt
    ensures GetSendBufferSize(WithSendBufferSize(s, size)) == Ok(size)
    ensures GetReceiveBufferSize(WithReceiveBufferSize(s, size)) == Ok(size)
  {
  }

  /** Each builder leaves every other option as it was: all the other queries answer as before. */
  lemma BuildersTouchOneOption(s: SocketSettings, size: int, b: bool)
    ensures var t := WithSendBufferSize(s, size);
            GetReceiveBufferSize(t) == GetReceiveBufferSize(s) && GetKeepAlive(t) == GetKeepAlive(s)
            && GetReuseAddress(t) == GetReuseAddress(s) && GetTcpNoDelay(t) == GetTcpNoDelay(s)
    ensures var t := WithReceiveBufferSize(s, size);
            GetSendBufferSize(t) == GetSendBufferSize(s) && GetKeepAlive(t) == GetKeepAlive(s)
            && GetReuseAddress(t) == GetReuseAddress(s) && GetTcpNoDelay(t) == GetTcpNoDelay(s)
    ensures var t := WithKeepAlive(s, b);
            GetSendBufferSize(t) == GetSendBufferSize(s) && GetReceiveBufferSize(t) == GetReceiveBufferSize(s)
            && GetReuseAddress(t) == GetReuseAddress(s) && GetTcpNoDelay(t) == GetTcpNoDelay(s)
    ensures var t := WithReuseAddress(s, b);
            GetSendBufferSize(t) == GetSendBufferSize(s) && GetReceiveBufferSize(t) == GetReceiveBufferSize(s)
            && GetKeepAlive(t) == GetKeepAlive(s) && GetTcpNoDelay(t) == GetTcpNoDelay(s)
    ensures var t := WithTcpNoDelay(s, b);
            GetSendBufferSize(t) == GetSendBufferSize(s) && GetReceiveBufferSize(t) == GetReceiveBufferSize(s)
            && GetKeepAlive(t) == GetKeepAlive(s) && GetReuseAddress(t) == GetReuseAddress(s)
  {
  }

  /** Setting an option twice keeps only the later value; setting two different options commutes. */
  lemma LaterSettingWins(s: SocketSettings, a: int, b: int, x: bool, y: bool)
    ensures WithSendBufferSize(WithSendBufferSize(s, a), b) == WithSendBufferSize(s, b)
    ensures WithKeepAlive(WithKeepAlive(s, x), y) == WithKeepAlive(s, y)
    ensures WithSendBufferSize(WithKeepAlive(s, x), a) == WithKeepAlive(WithSendBufferSize(s, a), x)
  {
  }

  /**
   * Because -1 is both the unset marker and a storable size,
   * `sendBufferSize(-1)` builds settings equal to ones without a send buffer
   * size: the size -1 cannot be asked for, and setting it clears an earlier size.
   */
  lemma SendBufferSentinelCollision(s: SocketSettings)
    ensures WithSendBufferSize(Default(), -1) == Default()
    ensures !HasSendBufferSize(WithSendBufferSize(s, -1))
    ensures GetSendBufferSize(WithSendBufferSize(s, -1)).Err?
  {
  }
}
