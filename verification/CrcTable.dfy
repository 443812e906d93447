/** The table of crc16.c: 16 rows of 16. */
module CrcTable {

  function Row0(j: bv8): bv16 {
    match j
    case 0 => 0x0000 case 1 => 0xC0C1 case 2 => 0xC181 case 3 => 0x0140
    case 4 => 0xC301 case 5 => 0x03C0 case 6 => 0x0280 case 7 => 0xC241
    case 8 => 0xC601 case 9 => 0x06C0 case 10 => 0x0780 case 11 => 0xC741
    case 12 => 0x0500 case 13 => 0xC5C1 case 14 => 0xC481 case _ => 0x0440
  }

  function Row1(j: bv8): bv16 {
    match j
    case 0 => 0xCC01 case 1 => 0x0CC0 case 2 => 0x0D80 case 3 => 0xCD41
    case 4 => 0x0F00 case 5 => 0xCFC1 case 6 => 0xCE81 case 7 => 0x0E40
    case 8 => 0x0A00 case 9 => 0xCAC1 case 10 => 0xCB81 case 11 => 0x0B40
    case 12 => 0xC901 case 13 => 0x09C0 case 14 => 0x0880 case _ => 0xC841
  }

  function Row2(j: bv8): bv16 {
    match j
    case 0 => 0xD801 case 1 => 0x18C0 case 2 => 0x1980 case 3 => 0xD941
    case 4 => 0x1B00 case 5 => 0xDBC1 case 6 => 0xDA81 case 7 => 0x1A40
    case 8 => 0x1E00 case 9 => 0xDEC1 case 10 => 0xDF81 case 11 => 0x1F40
    case 12 => 0xDD01 case 13 => 0x1DC0 case 14 => 0x1C80 case _ => 0xDC41
  }

  function Row3(j: bv8): bv16 {
    match j
    case 0 => 0x1400 case 1 => 0xD4C1 case 2 => 0xD581 case 3 => 0x1540
    case 4 => 0xD701 case 5 => 0x17C0 case 6 => 0x1680 case 7 => 0xD641
    case 8 => 0xD201 case 9 => 0x12C0 case 10 => 0x1380 case 11 => 0xD341
    case 12 => 0x1100 case 13 => 0xD1C1 case 14 => 0xD081 case _ => 0x1040
  }

  function Row4(j: bv8): bv16 {
    match j
    case 0 => 0xF001 case 1 => 0x30C0 case 2 => 0x3180 case 3 => 0xF141
    case 4 => 0x3300 case 5 => 0xF3C1 case 6 => 0xF281 case 7 => 0x3240
    case 8 => 0x3600 case 9 => 0xF6C1 case 10 => 0xF781 case 11 => 0x3740
    case 12 => 0xF501 case 13 => 0x35C0 case 14 => 0x3480 case _ => 0xF441
  }

  function Row5(j: bv8): bv16 {
    match j
    case 0 => 0x3C00 case 1 => 0xFCC1 case 2 => 0xFD81 case 3 => 0x3D40
    case 4 => 0xFF01 case 5 => 0x3FC0 case 6 => 0x3E80 case 7 => 0xFE41
    case 8 => 0xFA01 case 9 => 0x3AC0 case 10 => 0x3B80 case 11 => 0xFB41
    case 12 => 0x3900 case 13 => 0xF9C1 case 14 => 0xF881 case _ => 0x3840
  }

  function Row6(j: bv8): bv16 {
    match j
    case 0 => 0x2800 case 1 => 0xE8C1 case 2 => 0xE981 case 3 => 0x2940
    case 4 => 0xEB01 case 5 => 0x2BC0 case 6 => 0x2A80 case 7 => 0xEA41
    case 8 => 0xEE01 case 9 => 0x2EC0 case 10 => 0x2F80 case 11 => 0xEF41
    case 12 => 0x2D00 case 13 => 0xEDC1 case 14 => 0xEC81 case _ => 0x2C40
  }

  function Row7(j: bv8): bv16 {
    match j
    case 0 => 0xE401 case 1 => 0x24C0 case 2 => 0x2580 case 3 => 0xE541
    case 4 => 0x2700 case 5 => 0xE7C1 case 6 => 0xE681 case 7 => 0x2640
    case 8 => 0x2200 case 9 => 0xE2C1 case 10 => 0xE381 case 11 => 0x2340
    case 12 => 0xE101 case 13 => 0x21C0 case 14 => 0x2080 case _ => 0xE041
  }

  function Row8(j: bv8): bv16 {
    match j
    case 0 => 0xA001 case 1 => 0x60C0 case 2 => 0x6180 case 3 => 0xA141
    case 4 => 0x6300 case 5 => 0xA3C1 case 6 => 0xA281 case 7 => 0x6240
    case 8 => 0x6600 case 9 => 0xA6C1 case 10 => 0xA781 case 11 => 0x6740
    case 12 => 0xA501 case 13 => 0x65C0 case 14 => 0x6480 case _ => 0xA441
  }

  function Row9(j: bv8): bv16 {
    match j
    case 0 => 0x6C00 case 1 => 0xACC1 case 2 => 0xAD81 case 3 => 0x6D40
    case 4 => 0xAF01 case 5 => 0x6FC0 case 6 => 0x6E80 case 7 => 0xAE41
    case 8 => 0xAA01 case 9 => 0x6AC0 case 10 => 0x6B80 case 11 => 0xAB41
    case 12 => 0x6900 case 13 => 0xA9C1 case 14 => 0xA881 case _ => 0x6840
  }

  function RowA(j: bv8): bv16 {
    match j
    case 0 => 0x7800 case 1 => 0xB8C1 case 2 => 0xB981 case 3 => 0x7940
    case 4 => 0xBB01 case 5 => 0x7BC0 case 6 => 0x7A80 case 7 => 0xBA41
    case 8 => 0xBE01 case 9 => 0x7EC0 case 10 => 0x7F80 case 11 => 0xBF41
    case 12 => 0x7D00 case 13 => 0xBDC1 case 14 => 0xBC81 case _ => 0x7C40
  }

  function RowB(j: bv8): bv16 {
    match j
    case 0 => 0xB401 case 1 => 0x74C0 case 2 => 0x7580 case 3 => 0xB541
    case 4 => 0x7700 case 5 => 0xB7C1 case 6 => 0xB681 case 7 => 0x7640
    case 8 => 0x7200 case 9 => 0xB2C1 case 10 => 0xB381 case 11 => 0x7340
    case 12 => 0xB101 case 13 => 0x71C0 case 14 => 0x7080 case _ => 0xB041
  }

  function RowC(j: bv8): bv16 {
    match j
    case 0 => 0x5000 case 1 => 0x90C1 case 2 => 0x9181 case 3 => 0x5140
    case 4 => 0x9301 case 5 => 0x53C0 case 6 => 0x5280 case 7 => 0x9241
    case 8 => 0x9601 case 9 => 0x56C0 case 10 => 0x5780 case 11 => 0x9741
    case 12 => 0x5500 case 13 => 0x95C1 case 14 => 0x9481 case _ => 0x5440
  }

  function RowD(j: bv8): bv16 {
    match j
    case 0 => 0x9C01 case 1 => 0x5CC0 case 2 => 0x5D80 case 3 => 0x9D41
    case 4 => 0x5F00 case 5 => 0x9FC1 case 6 => 0x9E81 case 7 => 0x5E40
    case 8 => 0x5A00 case 9 => 0x9AC1 case 10 => 0x9B81 case 11 => 0x5B40
    case 12 => 0x9901 case 13 => 0x59C0 case 14 => 0x5880 case _ => 0x9841
  }

  function RowE(j: bv8): bv16 {
    match j
    case 0 => 0x8801 case 1 => 0x48C0 case 2 => 0x4980 case 3 => 0x8941
    case 4 => 0x4B00 case 5 => 0x8BC1 case 6 => 0x8A81 case 7 => 0x4A40
    case 8 => 0x4E00 case 9 => 0x8EC1 case 10 => 0x8F81 case 11 => 0x4F40
    case 12 => 0x8D01 case 13 => 0x4DC0 case 14 => 0x4C80 case _ => 0x8C41
  }

  function RowF(j: bv8): bv16 {
    match j
    case 0 => 0x4400 case 1 => 0x84C1 case 2 => 0x8581 case 3 => 0x4540
    case 4 => 0x8701 case 5 => 0x47C0 case 6 => 0x4680 case 7 => 0x8641
    case 8 => 0x8201 case 9 => 0x42C0 case 10 => 0x4380 case 11 => 0x8341
    case 12 => 0x4100 case 13 => 0x81C1 case 14 => 0x8081 case _ => 0x4040
  }

  /** pTable. */
  function Entry(i: bv8): bv16 {
    match i >> 4
    case 0 => Row0(i & 15)
    case 1 => Row1(i & 15)
    case 2 => Row2(i & 15)
    case 3 => Row3(i & 15)
    case 4 => Row4(i & 15)
    case 5 => Row5(i & 15)
    case 6 => Row6(i & 15)
    case 7 => Row7(i & 15)
    case 8 => Row8(i & 15)
    case 9 => Row9(i & 15)
    case 10 => RowA(i & 15)
    case 11 => RowB(i & 15)
    case 12 => RowC(i & 15)
    case 13 => RowD(i & 15)
    case 14 => RowE(i & 15)
    case _ => RowF(i & 15)
  }

  /** One bit of the reflected CRC with polynomial 0xA001: section 6.2.2 of the MODBUS over Serial
      Line Specification V1.02. */
  function Bit(x: bv16): bv16 {
    if x & 1 != 0 then (x >> 1) ^ 0xA001 else x >> 1
  }

  function EightBits(x: bv16): bv16 {
    Bit(Bit(Bit(Bit(Bit(Bit(Bit(Bit(x))))))))
  }

  /** Every table entry is eight bit steps from its index. */
  lemma EntryIsBitwise(i: bv8)
    ensures Entry(i) == EightBits(i as bv16)
  {
  }
}
