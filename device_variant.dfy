/**
 * The device variant read from the one-time-programmable flash block: the
 * case colour and whether the firmware is Bitcoin-only. The three values
 * are globals of the firmware, fields here; the flash read is an input.
 */
module DeviceVariant {
  import opened Wrappers

  newtype u8 = x: int | 0 <= x < 0x100

  /** Size of an OTP flash block, in bytes. */
  const FLASH_OTP_BLOCK_SIZE: nat := 32

  /** The only layout of the block this firmware knows. */
  const VARIANT_VERSION_0X01: u8 := 0x01

  class DeviceVariant {
    var color: u8
    var btconly: bool
    var ok: bool

    /** Before the block is read: colour 0, not Bitcoin-only, not present. */
    constructor ()
      ensures color == 0 && !btconly && !ok
    {
      color := 0;
      btconly := false;
      ok := false;
    }

    /** Takes the colour from byte 1 and the Bitcoin-only flag from byte 2. */
    method Variant0x01(data: seq<u8>)
      requires |data| == FLASH_OTP_BLOCK_SIZE
      modifies this
      ensures color == data[1] && btconly == (data[2] == 1) && ok
    {
      color := data[1];
      btconly := data[2] == 1;
      ok := true;
    }

    /**
     * `read` is the block as read, or None when the read failed. A block of
     * version 0x01 sets all three values; a failed read or another version
     * changes nothing.
     */
    method Init(read: Option<seq<u8>>)
      requires read.Some? ==> |read.value| == FLASH_OTP_BLOCK_SIZE
      modifies this
      ensures read.Some? && read.value[0] == VARIANT_VERSION_0X01 ==>
        color == read.value[1] && btconly == (read.value[2] == 1) && ok
      ensures read.None? || read.value[0] != VARIANT_VERSION_0X01 ==>
        color == old(color) && btconly == old(btconly) && ok == old(ok)
    {
      if read.Some? {
        var data := read.value;
        if data[0] == VARIANT_VERSION_0X01 {
          Variant0x01(data);
        }
      }
    }

    method GetColor() returns (c: u8)
      ensures c == color
    {
      return color;
    }

    method GetBtconly() returns (b: bool)
      ensures b == btconly
    {
      return btconly;
    }

    method Present() returns (b: bool)
      ensures b == ok
    {
      return ok;
    }
  }
}
