/**
  The lookup tables of the CRC routines in bcmutils.c and crc32.c, a quarter or an eighth at a
  time.  Every contract says that each entry is what eight steps of bit-by-bit polynomial division
  make of its index.
 */
module CrcTables {

  /** One step of division by the 32-bit polynomial of IEEE 802.3, bits reversed. */
  function Bit32(c: bv32): bv32 {
    if c & 1 == 1 then (c >> 1) ^ 0xEDB88320 else c >> 1
  }

  function Byte32(c: bv32): bv32 {
    Bit32(Bit32(Bit32(Bit32(Bit32(Bit32(Bit32(Bit32(c))))))))
  }

  function Quarter32_0(y: bv8): (x: bv32)
    requires y < 64
    ensures x == Byte32(0x00 | y as bv32)
  {
    match y
    case 0 => 0x00000000 case 1 => 0x77073096 case 2 => 0xEE0E612C case 3 => 0x990951BA
    case 4 => 0x076DC419 case 5 => 0x706AF48F case 6 => 0xE963A535 case 7 => 0x9E6495A3
    case 8 => 0x0EDB8832 case 9 => 0x79DCB8A4 case 10 => 0xE0D5E91E case 11 => 0x97D2D988
    case 12 => 0x09B64C2B case 13 => 0x7EB17CBD case 14 => 0xE7B82D07 case 15 => 0x90BF1D91
    case 16 => 0x1DB71064 case 17 => 0x6AB020F2 case 18 => 0xF3B97148 case 19 => 0x84BE41DE
    case 20 => 0x1ADAD47D case 21 => 0x6DDDE4EB case 22 => 0xF4D4B551 case 23 => 0x83D385C7
    case 24 => 0x136C9856 case 25 => 0x646BA8C0 case 26 => 0xFD62F97A case 27 => 0x8A65C9EC
    case 28 => 0x14015C4F case 29 => 0x63066CD9 case 30 => 0xFA0F3D63 case 31 => 0x8D080DF5
    case 32 => 0x3B6E20C8 case 33 => 0x4C69105E case 34 => 0xD56041E4 case 35 => 0xA2677172
    case 36 => 0x3C03E4D1 case 37 => 0x4B04D447 case 38 => 0xD20D85FD case 39 => 0xA50AB56B
    case 40 => 0x35B5A8FA case 41 => 0x42B2986C case 42 => 0xDBBBC9D6 case 43 => 0xACBCF940
    case 44 => 0x32D86CE3 case 45 => 0x45DF5C75 case 46 => 0xDCD60DCF case 47 => 0xABD13D59
    case 48 => 0x26D930AC case 49 => 0x51DE003A case 50 => 0xC8D75180 case 51 => 0xBFD06116
    case 52 => 0x21B4F4B5 case 53 => 0x56B3C423 case 54 => 0xCFBA9599 case 55 => 0xB8BDA50F
    case 56 => 0x2802B89E case 57 => 0x5F058808 case 58 => 0xC60CD9B2 case 59 => 0xB10BE924
    case 60 => 0x2F6F7C87 case 61 => 0x58684C11 case 62 => 0xC1611DAB case _ => 0xB6662D3D
  }

  function Quarter32_1(y: bv8): (x: bv32)
    requires y < 64
    ensures x == Byte32(0x40 | y as bv32)
  {
    match y
    case 0 => 0x76DC4190 case 1 => 0x01DB7106 case 2 => 0x98D220BC case 3 => 0xEFD5102A
    case 4 => 0x71B18589 case 5 => 0x06B6B51F case 6 => 0x9FBFE4A5 case 7 => 0xE8B8D433
    case 8 => 0x7807C9A2 case 9 => 0x0F00F934 case 10 => 0x9609A88E case 11 => 0xE10E9818
    case 12 => 0x7F6A0DBB case 13 => 0x086D3D2D case 14 => 0x91646C97 case 15 => 0xE6635C01
    case 16 => 0x6B6B51F4 case 17 => 0x1C6C6162 case 18 => 0x856530D8 case 19 => 0xF262004E
    case 20 => 0x6C0695ED case 21 => 0x1B01A57B case 22 => 0x8208F4C1 case 23 => 0xF50FC457
    case 24 => 0x65B0D9C6 case 25 => 0x12B7E950 case 26 => 0x8BBEB8EA case 27 => 0xFCB9887C
    case 28 => 0x62DD1DDF case 29 => 0x15DA2D49 case 30 => 0x8CD37CF3 case 31 => 0xFBD44C65
    case 32 => 0x4DB26158 case 33 => 0x3AB551CE case 34 => 0xA3BC0074 case 35 => 0xD4BB30E2
    case 36 => 0x4ADFA541 case 37 => 0x3DD895D7 case 38 => 0xA4D1C46D case 39 => 0xD3D6F4FB
    case 40 => 0x4369E96A case 41 => 0x346ED9FC case 42 => 0xAD678846 case 43 => 0xDA60B8D0
    case 44 => 0x44042D73 case 45 => 0x33031DE5 case 46 => 0xAA0A4C5F case 47 => 0xDD0D7CC9
    case 48 => 0x5005713C case 49 => 0x270241AA case 50 => 0xBE0B1010 case 51 => 0xC90C2086
    case 52 => 0x5768B525 case 53 => 0x206F85B3 case 54 => 0xB966D409 case 55 => 0xCE61E49F
    case 56 => 0x5EDEF90E case 57 => 0x29D9C998 case 58 => 0xB0D09822 case 59 => 0xC7D7A8B4
    case 60 => 0x59B33D17 case 61 => 0x2EB40D81 case 62 => 0xB7BD5C3B case _ => 0xC0BA6CAD
  }

  function Quarter32_2(y: bv8): (x: bv32)
    requires y < 64
    ensures x == Byte32(0x80 | y as bv32)
  {
    match y
    case 0 => 0xEDB88320 case 1 => 0x9ABFB3B6 case 2 => 0x03B6E20C case 3 => 0x74B1D29A
    case 4 => 0xEAD54739 case 5 => 0x9DD277AF case 6 => 0x04DB2615 case 7 => 0x73DC1683
    case 8 => 0xE3630B12 case 9 => 0x94643B84 case 10 => 0x0D6D6A3E case 11 => 0x7A6A5AA8
    case 12 => 0xE40ECF0B case 13 => 0x9309FF9D case 14 => 0x0A00AE27 case 15 => 0x7D079EB1
    case 16 => 0xF00F9344 case 17 => 0x8708A3D2 case 18 => 0x1E01F268 case 19 => 0x6906C2FE
    case 20 => 0xF762575D case 21 => 0x806567CB case 22 => 0x196C3671 case 23 => 0x6E6B06E7
    case 24 => 0xFED41B76 case 25 => 0x89D32BE0 case 26 => 0x10DA7A5A case 27 => 0x67DD4ACC
    case 28 => 0xF9B9DF6F case 29 => 0x8EBEEFF9 case 30 => 0x17B7BE43 case 31 => 0x60B08ED5
    case 32 => 0xD6D6A3E8 case 33 => 0xA1D1937E case 34 => 0x38D8C2C4 case 35 => 0x4FDFF252
    case 36 => 0xD1BB67F1 case 37 => 0xA6BC5767 case 38 => 0x3FB506DD case 39 => 0x48B2364B
    case 40 => 0xD80D2BDA case 41 => 0xAF0A1B4C case 42 => 0x36034AF6 case 43 => 0x41047A60
    case 44 => 0xDF60EFC3 case 45 => 0xA867DF55 case 46 => 0x316E8EEF case 47 => 0x4669BE79
    case 48 => 0xCB61B38C case 49 => 0xBC66831A case 50 => 0x256FD2A0 case 51 => 0x5268E236
    case 52 => 0xCC0C7795 case 53 => 0xBB0B4703 case 54 => 0x220216B9 case 55 => 0x5505262F
    case 56 => 0xC5BA3BBE case 57 => 0xB2BD0B28 case 58 => 0x2BB45A92 case 59 => 0x5CB36A04
    case 60 => 0xC2D7FFA7 case 61 => 0xB5D0CF31 case 62 => 0x2CD99E8B case _ => 0x5BDEAE1D
  }

  function Quarter32_3(y: bv8): (x: bv32)
    requires y < 64
    ensures x == Byte32(0xC0 | y as bv32)
  {
    match y
    case 0 => 0x9B64C2B0 case 1 => 0xEC63F226 case 2 => 0x756AA39C case 3 => 0x026D930A
    case 4 => 0x9C0906A9 case 5 => 0xEB0E363F case 6 => 0x72076785 case 7 => 0x05005713
    case 8 => 0x95BF4A82 case 9 => 0xE2B87A14 case 10 => 0x7BB12BAE case 11 => 0x0CB61B38
    case 12 => 0x92D28E9B case 13 => 0xE5D5BE0D case 14 => 0x7CDCEFB7 case 15 => 0x0BDBDF21
    case 16 => 0x86D3D2D4 case 17 => 0xF1D4E242 case 18 => 0x68DDB3F8 case 19 => 0x1FDA836E
    case 20 => 0x81BE16CD case 21 => 0xF6B9265B case 22 => 0x6FB077E1 case 23 => 0x18B74777
    case 24 => 0x88085AE6 case 25 => 0xFF0F6A70 case 26 => 0x66063BCA case 27 => 0x11010B5C
    case 28 => 0x8F659EFF case 29 => 0xF862AE69 case 30 => 0x616BFFD3 case 31 => 0x166CCF45
    case 32 => 0xA00AE278 case 33 => 0xD70DD2EE case 34 => 0x4E048354 case 35 => 0x3903B3C2
    case 36 => 0xA7672661 case 37 => 0xD06016F7 case 38 => 0x4969474D case 39 => 0x3E6E77DB
    case 40 => 0xAED16A4A case 41 => 0xD9D65ADC case 42 => 0x40DF0B66 case 43 => 0x37D83BF0
    case 44 => 0xA9BCAE53 case 45 => 0xDEBB9EC5 case 46 => 0x47B2CF7F case 47 => 0x30B5FFE9
    case 48 => 0xBDBDF21C case 49 => 0xCABAC28A case 50 => 0x53B39330 case 51 => 0x24B4A3A6
    case 52 => 0xBAD03605 case 53 => 0xCDD70693 case 54 => 0x54DE5729 case 55 => 0x23D967BF
    case 56 => 0xB3667A2E case 57 => 0xC4614AB8 case 58 => 0x5D681B02 case 59 => 0x2A6F2B94
    case 60 => 0xB40BBE37 case 61 => 0xC30C8EA1 case 62 => 0x5A05DF1B case _ => 0x2D02EF8D
  }

  /** `crc32_table` */
  function Table32(i: bv8): (x: bv32)
    ensures x == Byte32(i as bv32)
  {
    var y := i & 0x3F;
    hide Byte32;
    match i >> 6
    case 0 => assert 0x00 | y as bv32 == i as bv32; Quarter32_0(y)
    case 1 => assert 0x40 | y as bv32 == i as bv32; Quarter32_1(y)
    case 2 => assert 0x80 | y as bv32 == i as bv32; Quarter32_2(y)
    case _ => assert 0xC0 | y as bv32 == i as bv32; Quarter32_3(y)
  }

  /** One step of division by x^16 + x^12 + x^5 + 1, bits reversed. */
  function Bit16(c: bv16): bv16 {
    if c & 1 == 1 then (c >> 1) ^ 0x8408 else c >> 1
  }

  function Byte16(c: bv16): bv16 {
    Bit16(Bit16(Bit16(Bit16(Bit16(Bit16(Bit16(Bit16(c))))))))
  }

  function Quarter16_0(y: bv8): (x: bv16)
    requires y < 64
    ensures x == Byte16(0x00 | y as bv16)
  {
    match y
    case 0 => 0x0000 case 1 => 0x1189 case 2 => 0x2312 case 3 => 0x329B
    case 4 => 0x4624 case 5 => 0x57AD case 6 => 0x6536 case 7 => 0x74BF
    case 8 => 0x8C48 case 9 => 0x9DC1 case 10 => 0xAF5A case 11 => 0xBED3
    case 12 => 0xCA6C case 13 => 0xDBE5 case 14 => 0xE97E case 15 => 0xF8F7
    case 16 => 0x1081 case 17 => 0x0108 case 18 => 0x3393 case 19 => 0x221A
    case 20 => 0x56A5 case 21 => 0x472C case 22 => 0x75B7 case 23 => 0x643E
    case 24 => 0x9CC9 case 25 => 0x8D40 case 26 => 0xBFDB case 27 => 0xAE52
    case 28 => 0xDAED case 29 => 0xCB64 case 30 => 0xF9FF case 31 => 0xE876
    case 32 => 0x2102 case 33 => 0x308B case 34 => 0x0210 case 35 => 0x1399
    case 36 => 0x6726 case 37 => 0x76AF case 38 => 0x4434 case 39 => 0x55BD
    case 40 => 0xAD4A case 41 => 0xBCC3 case 42 => 0x8E58 case 43 => 0x9FD1
    case 44 => 0xEB6E case 45 => 0xFAE7 case 46 => 0xC87C case 47 => 0xD9F5
    case 48 => 0x3183 case 49 => 0x200A case 50 => 0x1291 case 51 => 0x0318
    case 52 => 0x77A7 case 53 => 0x662E case 54 => 0x54B5 case 55 => 0x453C
    case 56 => 0xBDCB case 57 => 0xAC42 case 58 => 0x9ED9 case 59 => 0x8F50
    case 60 => 0xFBEF case 61 => 0xEA66 case 62 => 0xD8FD case _ => 0xC974
  }

  function Quarter16_1(y: bv8): (x: bv16)
    requires y < 64
    ensures x == Byte16(0x40 | y as bv16)
  {
    match y
    case 0 => 0x4204 case 1 => 0x538D case 2 => 0x6116 case 3 => 0x709F
    case 4 => 0x0420 case 5 => 0x15A9 case 6 => 0x2732 case 7 => 0x36BB
    case 8 => 0xCE4C case 9 => 0xDFC5 case 10 => 0xED5E case 11 => 0xFCD7
    case 12 => 0x8868 case 13 => 0x99E1 case 14 => 0xAB7A case 15 => 0xBAF3
    case 16 => 0x5285 case 17 => 0x430C case 18 => 0x7197 case 19 => 0x601E
    case 20 => 0x14A1 case 21 => 0x0528 case 22 => 0x37B3 case 23 => 0x263A
    case 24 => 0xDECD case 25 => 0xCF44 case 26 => 0xFDDF case 27 => 0xEC56
    case 28 => 0x98E9 case 29 => 0x8960 case 30 => 0xBBFB case 31 => 0xAA72
    case 32 => 0x6306 case 33 => 0x728F case 34 => 0x4014 case 35 => 0x519D
    case 36 => 0x2522 case 37 => 0x34AB case 38 => 0x0630 case 39 => 0x17B9
    case 40 => 0xEF4E case 41 => 0xFEC7 case 42 => 0xCC5C case 43 => 0xDDD5
    case 44 => 0xA96A case 45 => 0xB8E3 case 46 => 0x8A78 case 47 => 0x9BF1
    case 48 => 0x7387 case 49 => 0x620E case 50 => 0x5095 case 51 => 0x411C
    case 52 => 0x35A3 case 53 => 0x242A case 54 => 0x16B1 case 55 => 0x0738
    case 56 => 0xFFCF case 57 => 0xEE46 case 58 => 0xDCDD case 59 => 0xCD54
    case 60 => 0xB9EB case 61 => 0xA862 case 62 => 0x9AF9 case _ => 0x8B70
  }

  function Quarter16_2(y: bv8): (x: bv16)
    requires y < 64
    ensures x == Byte16(0x80 | y as bv16)
  {
    match y
    case 0 => 0x8408 case 1 => 0x9581 case 2 => 0xA71A case 3 => 0xB693
    case 4 => 0xC22C case 5 => 0xD3A5 case 6 => 0xE13E case 7 => 0xF0B7
    case 8 => 0x0840 case 9 => 0x19C9 case 10 => 0x2B52 case 11 => 0x3ADB
    case 12 => 0x4E64 case 13 => 0x5FED case 14 => 0x6D76 case 15 => 0x7CFF
    case 16 => 0x9489 case 17 => 0x8500 case 18 => 0xB79B case 19 => 0xA612
    case 20 => 0xD2AD case 21 => 0xC324 case 22 => 0xF1BF case 23 => 0xE036
    case 24 => 0x18C1 case 25 => 0x0948 case 26 => 0x3BD3 case 27 => 0x2A5A
    case 28 => 0x5EE5 case 29 => 0x4F6C case 30 => 0x7DF7 case 31 => 0x6C7E
    case 32 => 0xA50A case 33 => 0xB483 case 34 => 0x8618 case 35 => 0x9791
    case 36 => 0xE32E case 37 => 0xF2A7 case 38 => 0xC03C case 39 => 0xD1B5
    case 40 => 0x2942 case 41 => 0x38CB case 42 => 0x0A50 case 43 => 0x1BD9
    case 44 => 0x6F66 case 45 => 0x7EEF case 46 => 0x4C74 case 47 => 0x5DFD
    case 48 => 0xB58B case 49 => 0xA402 case 50 => 0x9699 case 51 => 0x8710
    case 52 => 0xF3AF case 53 => 0xE226 case 54 => 0xD0BD case 55 => 0xC134
    case 56 => 0x39C3 case 57 => 0x284A case 58 => 0x1AD1 case 59 => 0x0B58
    case 60 => 0x7FE7 case 61 => 0x6E6E case 62 => 0x5CF5 case _ => 0x4D7C
  }

  function Quarter16_3(y: bv8): (x: bv16)
    requires y < 64
    ensures x == Byte16(0xC0 | y as bv16)
  {
    match y
    case 0 => 0xC60C case 1 => 0xD785 case 2 => 0xE51E case 3 => 0xF497
    case 4 => 0x8028 case 5 => 0x91A1 case 6 => 0xA33A case 7 => 0xB2B3
    case 8 => 0x4A44 case 9 => 0x5BCD case 10 => 0x6956 case 11 => 0x78DF
    case 12 => 0x0C60 case 13 => 0x1DE9 case 14 => 0x2F72 case 15 => 0x3EFB
    case 16 => 0xD68D case 17 => 0xC704 case 18 => 0xF59F case 19 => 0xE416
    case 20 => 0x90A9 case 21 => 0x8120 case 22 => 0xB3BB case 23 => 0xA232
    case 24 => 0x5AC5 case 25 => 0x4B4C case 26 => 0x79D7 case 27 => 0x685E
    case 28 => 0x1CE1 case 29 => 0x0D68 case 30 => 0x3FF3 case 31 => 0x2E7A
    case 32 => 0xE70E case 33 => 0xF687 case 34 => 0xC41C case 35 => 0xD595
    case 36 => 0xA12A case 37 => 0xB0A3 case 38 => 0x8238 case 39 => 0x93B1
    case 40 => 0x6B46 case 41 => 0x7ACF case 42 => 0x4854 case 43 => 0x59DD
    case 44 => 0x2D62 case 45 => 0x3CEB case 46 => 0x0E70 case 47 => 0x1FF9
    case 48 => 0xF78F case 49 => 0xE606 case 50 => 0xD49D case 51 => 0xC514
    case 52 => 0xB1AB case 53 => 0xA022 case 54 => 0x92B9 case 55 => 0x8330
    case 56 => 0x7BC7 case 57 => 0x6A4E case 58 => 0x58D5 case 59 => 0x495C
    case 60 => 0x3DE3 case 61 => 0x2C6A case 62 => 0x1EF1 case _ => 0x0F78
  }

  /** `crc16_table` */
  function Table16(i: bv8): (x: bv16)
    ensures x == Byte16(i as bv16)
  {
    var y := i & 0x3F;
    hide Byte16;
    match i >> 6
    case 0 => assert 0x00 | y as bv16 == i as bv16; Quarter16_0(y)
    case 1 => assert 0x40 | y as bv16 == i as bv16; Quarter16_1(y)
    case 2 => assert 0x80 | y as bv16 == i as bv16; Quarter16_2(y)
    case _ => assert 0xC0 | y as bv16 == i as bv16; Quarter16_3(y)
  }

  /** One step of division by x^8 + x^7 + x^6 + x^4 + x^2 + 1, bits reversed. */
  function Bit8(c: bv8): bv8 {
    if c & 1 == 1 then (c >> 1) ^ 0xAB else c >> 1
  }

  function Byte8(c: bv8): bv8 {
    Bit8(Bit8(Bit8(Bit8(Bit8(Bit8(Bit8(Bit8(c))))))))
  }

  function Eighth8_0(y: bv8): (x: bv8)
    requires y < 32
    ensures x == Byte8(0x00 | y)
  {
    match y
    case 0 => 0x00 case 1 => 0xF7 case 2 => 0xB9 case 3 => 0x4E
    case 4 => 0x25 case 5 => 0xD2 case 6 => 0x9C case 7 => 0x6B
    case 8 => 0x4A case 9 => 0xBD case 10 => 0xF3 case 11 => 0x04
    case 12 => 0x6F case 13 => 0x98 case 14 => 0xD6 case 15 => 0x21
    case 16 => 0x94 case 17 => 0x63 case 18 => 0x2D case 19 => 0xDA
    case 20 => 0xB1 case 21 => 0x46 case 22 => 0x08 case 23 => 0xFF
    case 24 => 0xDE case 25 => 0x29 case 26 => 0x67 case 27 => 0x90
    case 28 => 0xFB case 29 => 0x0C case 30 => 0x42 case _ => 0xB5
  }

  function Eighth8_1(y: bv8): (x: bv8)
    requires y < 32
    ensures x == Byte8(0x20 | y)
  {
    match y
    case 0 => 0x7F case 1 => 0x88 case 2 => 0xC6 case 3 => 0x31
    case 4 => 0x5A case 5 => 0xAD case 6 => 0xE3 case 7 => 0x14
    case 8 => 0x35 case 9 => 0xC2 case 10 => 0x8C case 11 => 0x7B
    case 12 => 0x10 case 13 => 0xE7 case 14 => 0xA9 case 15 => 0x5E
    case 16 => 0xEB case 17 => 0x1C case 18 => 0x52 case 19 => 0xA5
    case 20 => 0xCE case 21 => 0x39 case 22 => 0x77 case 23 => 0x80
    case 24 => 0xA1 case 25 => 0x56 case 26 => 0x18 case 27 => 0xEF
    case 28 => 0x84 case 29 => 0x73 case 30 => 0x3D case _ => 0xCA
  }

  function Eighth8_2(y: bv8): (x: bv8)
    requires y < 32
    ensures x == Byte8(0x40 | y)
  {
    match y
    case 0 => 0xFE case 1 => 0x09 case 2 => 0x47 case 3 => 0xB0
    case 4 => 0xDB case 5 => 0x2C case 6 => 0x62 case 7 => 0x95
    case 8 => 0xB4 case 9 => 0x43 case 10 => 0x0D case 11 => 0xFA
    case 12 => 0x91 case 13 => 0x66 case 14 => 0x28 case 15 => 0xDF
    case 16 => 0x6A case 17 => 0x9D case 18 => 0xD3 case 19 => 0x24
    case 20 => 0x4F case 21 => 0xB8 case 22 => 0xF6 case 23 => 0x01
    case 24 => 0x20 case 25 => 0xD7 case 26 => 0x99 case 27 => 0x6E
    case 28 => 0x05 case 29 => 0xF2 case 30 => 0xBC case _ => 0x4B
  }

  function Eighth8_3(y: bv8): (x: bv8)
    requires y < 32
    ensures x == Byte8(0x60 | y)
  {
    match y
    case 0 => 0x81 case 1 => 0x76 case 2 => 0x38 case 3 => 0xCF
    case 4 => 0xA4 case 5 => 0x53 case 6 => 0x1D case 7 => 0xEA
    case 8 => 0xCB case 9 => 0x3C case 10 => 0x72 case 11 => 0x85
    case 12 => 0xEE case 13 => 0x19 case 14 => 0x57 case 15 => 0xA0
    case 16 => 0x15 case 17 => 0xE2 case 18 => 0xAC case 19 => 0x5B
    case 20 => 0x30 case 21 => 0xC7 case 22 => 0x89 case 23 => 0x7E
    case 24 => 0x5F case 25 => 0xA8 case 26 => 0xE6 case 27 => 0x11
    case 28 => 0x7A case 29 => 0x8D case 30 => 0xC3 case _ => 0x34
  }

  function Eighth8_4(y: bv8): (x: bv8)
    requires y < 32
    ensures x == Byte8(0x80 | y)
  {
    match y
    case 0 => 0xAB case 1 => 0x5C case 2 => 0x12 case 3 => 0xE5
    case 4 => 0x8E case 5 => 0x79 case 6 => 0x37 case 7 => 0xC0
    case 8 => 0xE1 case 9 => 0x16 case 10 => 0x58 case 11 => 0xAF
    case 12 => 0xC4 case 13 => 0x33 case 14 => 0x7D case 15 => 0x8A
    case 16 => 0x3F case 17 => 0xC8 case 18 => 0x86 case 19 => 0x71
    case 20 => 0x1A case 21 => 0xED case 22 => 0xA3 case 23 => 0x54
    case 24 => 0x75 case 25 => 0x82 case 26 => 0xCC case 27 => 0x3B
    case 28 => 0x50 case 29 => 0xA7 case 30 => 0xE9 case _ => 0x1E
  }

  function Eighth8_5(y: bv8): (x: bv8)
    requires y < 32
    ensures x == Byte8(0xA0 | y)
  {
    match y
    case 0 => 0xD4 case 1 => 0x23 case 2 => 0x6D case 3 => 0x9A
    case 4 => 0xF1 case 5 => 0x06 case 6 => 0x48 case 7 => 0xBF
    case 8 => 0x9E case 9 => 0x69 case 10 => 0x27 case 11 => 0xD0
    case 12 => 0xBB case 13 => 0x4C case 14 => 0x02 case 15 => 0xF5
    case 16 => 0x40 case 17 => 0xB7 case 18 => 0xF9 case 19 => 0x0E
    case 20 => 0x65 case 21 => 0x92 case 22 => 0xDC case 23 => 0x2B
    case 24 => 0x0A case 25 => 0xFD case 26 => 0xB3 case 27 => 0x44
    case 28 => 0x2F case 29 => 0xD8 case 30 => 0x96 case _ => 0x61
  }

  function Eighth8_6(y: bv8): (x: bv8)
    requires y < 32
    ensures x == Byte8(0xC0 | y)
  {
    match y
    case 0 => 0x55 case 1 => 0xA2 case 2 => 0xEC case 3 => 0x1B
    case 4 => 0x70 case 5 => 0x87 case 6 => 0xC9 case 7 => 0x3E
    case 8 => 0x1F case 9 => 0xE8 case 10 => 0xA6 case 11 => 0x51
    case 12 => 0x3A case 13 => 0xCD case 14 => 0x83 case 15 => 0x74
    case 16 => 0xC1 case 17 => 0x36 case 18 => 0x78 case 19 => 0x8F
    case 20 => 0xE4 case 21 => 0x13 case 22 => 0x5D case 23 => 0xAA
    case 24 => 0x8B case 25 => 0x7C case 26 => 0x32 case 27 => 0xC5
    case 28 => 0xAE case 29 => 0x59 case 30 => 0x17 case _ => 0xE0
  }

  function Eighth8_7(y: bv8): (x: bv8)
    requires y < 32
    ensures x == Byte8(0xE0 | y)
  {
    match y
    case 0 => 0x2A case 1 => 0xDD case 2 => 0x93 case 3 => 0x64
    case 4 => 0x0F case 5 => 0xF8 case 6 => 0xB6 case 7 => 0x41
    case 8 => 0x60 case 9 => 0x97 case 10 => 0xD9 case 11 => 0x2E
    case 12 => 0x45 case 13 => 0xB2 case 14 => 0xFC case 15 => 0x0B
    case 16 => 0xBE case 17 => 0x49 case 18 => 0x07 case 19 => 0xF0
    case 20 => 0x9B case 21 => 0x6C case 22 => 0x22 case 23 => 0xD5
    case 24 => 0xF4 case 25 => 0x03 case 26 => 0x4D case 27 => 0xBA
    case 28 => 0xD1 case 29 => 0x26 case 30 => 0x68 case _ => 0x9F
  }

  /** `crc8_table` */
  function Table8(i: bv8): (x: bv8)
    ensures x == Byte8(i as bv8)
  {
    var y := i & 0x1F;
    hide Byte8;
    match i >> 5
    case 0 => assert 0x00 | y == i; Eighth8_0(y)
    case 1 => assert 0x20 | y == i; Eighth8_1(y)
    case 2 => assert 0x40 | y == i; Eighth8_2(y)
    case 3 => assert 0x60 | y == i; Eighth8_3(y)
    case 4 => assert 0x80 | y == i; Eighth8_4(y)
    case 5 => assert 0xA0 | y == i; Eighth8_5(y)
    case 6 => assert 0xC0 | y == i; Eighth8_6(y)
    case _ => assert 0xE0 | y == i; Eighth8_7(y)
  }
}
