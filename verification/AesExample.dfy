/** The worked examples of FIPS 197: appendix A.3, a key expansion, and appendix
    C.3, a block under AES-256. */
module AesExample {
  import opened Gf
  import opened Sbox
  import opened Aes
  import opened Cbc
  import opened AesLaws

  /** The state at the start of round i + 1 of appendix C.3. */
  function At(i: nat): State {
    match i
    case 0 => State(Word(0x00, 0x10, 0x20, 0x30), Word(0x40, 0x50, 0x60, 0x70), Word(0x80, 0x90, 0xa0, 0xb0), Word(0xc0, 0xd0, 0xe0, 0xf0))
    case 1 => State(Word(0x4f, 0x63, 0x76, 0x06), Word(0x43, 0xe0, 0xaa, 0x85), Word(0xef, 0xa7, 0x21, 0x32), Word(0x01, 0xa4, 0xe7, 0x05))
    case 2 => State(Word(0x18, 0x59, 0xfb, 0xc2), Word(0x8a, 0x1c, 0x00, 0xa0), Word(0x78, 0xed, 0x8a, 0xad), Word(0xc4, 0x2f, 0x61, 0x09))
    case 3 => State(Word(0x97, 0x5c, 0x66, 0xc1), Word(0xcb, 0x9f, 0x3f, 0xa8), Word(0xa9, 0x3a, 0x28, 0xdf), Word(0x8e, 0xe1, 0x0f, 0x63))
    case 4 => State(Word(0x1c, 0x05, 0xf2, 0x71), Word(0xa4, 0x17, 0xe0, 0x4f), Word(0xf9, 0x21, 0xc5, 0xc1), Word(0x04, 0x70, 0x15, 0x54))
    case 5 => State(Word(0xc3, 0x57, 0xaa, 0xe1), Word(0x1b, 0x45, 0xb7, 0xb0), Word(0xa2, 0xc7, 0xbd, 0x28), Word(0xa8, 0xdc, 0x99, 0xfa))
    case 6 => State(Word(0x7f, 0x07, 0x41, 0x43), Word(0xcb, 0x4e, 0x24, 0x3e), Word(0xc1, 0x0c, 0x81, 0x5d), Word(0x83, 0x75, 0xd5, 0x4c))
    case 7 => State(Word(0xd6, 0x53, 0xa4, 0x69), Word(0x6c, 0xa0, 0xbc, 0x0f), Word(0x5a, 0xca, 0xab, 0x5d), Word(0xb9, 0x6c, 0x5e, 0x7d))
    case 8 => State(Word(0x5a, 0xa8, 0x58, 0x39), Word(0x5f, 0xd2, 0x8d, 0x7d), Word(0x05, 0xe1, 0xa3, 0x88), Word(0x68, 0xf3, 0xb9, 0xc5))
    case 9 => State(Word(0x4a, 0x82, 0x48, 0x51), Word(0xc5, 0x7e, 0x7e, 0x47), Word(0x64, 0x3d, 0xe5, 0x0c), Word(0x2a, 0xf3, 0xe8, 0xc9))
    case 10 => State(Word(0xc1, 0x49, 0x07, 0xf6), Word(0xca, 0x3b, 0x3a, 0xa0), Word(0x70, 0xe9, 0xaa, 0x31), Word(0x3b, 0x52, 0xb5, 0xec))
    case 11 => State(Word(0x5f, 0x9c, 0x6a, 0xbf), Word(0xba, 0xc6, 0x34, 0xaa), Word(0x50, 0x40, 0x9f, 0xa7), Word(0x66, 0x67, 0x76, 0x53))
    case 12 => State(Word(0x51, 0x66, 0x04, 0x95), Word(0x43, 0x53, 0x95, 0x03), Word(0x14, 0xfb, 0x86, 0xe4), Word(0x01, 0x92, 0x25, 0x21))
    case _ => State(Word(0x62, 0x7b, 0xce, 0xb9), Word(0x99, 0x9d, 0x5a, 0xaa), Word(0xc9, 0x45, 0xec, 0xf4), Word(0x23, 0xf5, 0x6d, 0xa5))
  }

  /** The same after SubBytes. */
  function Boxed(i: nat): State {
    match i
    case 0 => State(Word(0x63, 0xca, 0xb7, 0x04), Word(0x09, 0x53, 0xd0, 0x51), Word(0xcd, 0x60, 0xe0, 0xe7), Word(0xba, 0x70, 0xe1, 0x8c))
    case 1 => State(Word(0x84, 0xfb, 0x38, 0x6f), Word(0x1a, 0xe1, 0xac, 0x97), Word(0xdf, 0x5c, 0xfd, 0x23), Word(0x7c, 0x49, 0x94, 0x6b))
    case 2 => State(Word(0xad, 0xcb, 0x0f, 0x25), Word(0x7e, 0x9c, 0x63, 0xe0), Word(0xbc, 0x55, 0x7e, 0x95), Word(0x1c, 0x15, 0xef, 0x01))
    case 3 => State(Word(0x88, 0x4a, 0x33, 0x78), Word(0x1f, 0xdb, 0x75, 0xc2), Word(0xd3, 0x80, 0x34, 0x9e), Word(0x19, 0xf8, 0x76, 0xfb))
    case 4 => State(Word(0x9c, 0x6b, 0x89, 0xa3), Word(0x49, 0xf0, 0xe1, 0x84), Word(0x99, 0xfd, 0xa6, 0x78), Word(0xf2, 0x51, 0x59, 0x20))
    case 5 => State(Word(0x2e, 0x5b, 0xac, 0xf8), Word(0xaf, 0x6e, 0xa9, 0xe7), Word(0x3a, 0xc6, 0x7a, 0x34), Word(0xc2, 0x86, 0xee, 0x2d))
    case 6 => State(Word(0xd2, 0xc5, 0x83, 0x1a), Word(0x1f, 0x2f, 0x36, 0xb2), Word(0x78, 0xfe, 0x0c, 0x4c), Word(0xec, 0x9d, 0x03, 0x29))
    case 7 => State(Word(0xf6, 0xed, 0x49, 0xf9), Word(0x50, 0xe0, 0x65, 0x76), Word(0xbe, 0x74, 0x62, 0x4c), Word(0x56, 0x50, 0x58, 0xff))
    case 8 => State(Word(0xbe, 0xc2, 0x6a, 0x12), Word(0xcf, 0xb5, 0x5d, 0xff), Word(0x6b, 0xf8, 0x0a, 0xc4), Word(0x45, 0x0d, 0x56, 0xa6))
    case 9 => State(Word(0xd6, 0x13, 0x52, 0xd1), Word(0xa6, 0xf3, 0xf3, 0xa0), Word(0x43, 0x27, 0xd9, 0xfe), Word(0xe5, 0x0d, 0x9b, 0xdd))
    case 10 => State(Word(0x78, 0x3b, 0xc5, 0x42), Word(0x74, 0xe2, 0x80, 0xe0), Word(0x51, 0x1e, 0xac, 0xc7), Word(0xe2, 0x00, 0xd5, 0xce))
    case 11 => State(Word(0xcf, 0xde, 0x02, 0x08), Word(0xf4, 0xb4, 0x18, 0xac), Word(0x53, 0x09, 0xdb, 0x5c), Word(0x33, 0x85, 0x38, 0xed))
    case 12 => State(Word(0xd1, 0x33, 0xf2, 0x2a), Word(0x1a, 0xed, 0x2a, 0x7b), Word(0xfa, 0x0f, 0x44, 0x69), Word(0x7c, 0x4f, 0x3f, 0xfd))
    case _ => State(Word(0xaa, 0x21, 0x8b, 0x56), Word(0xee, 0x5e, 0xbe, 0xac), Word(0xdd, 0x6e, 0xce, 0xbf), Word(0x26, 0xe6, 0x3c, 0x06))
  }

  /** Words 4 * i to 4 * i + 3 of its key schedule. */
  function Keys(i: nat): State {
    match i
    case 0 => State(Word(0x00, 0x01, 0x02, 0x03), Word(0x04, 0x05, 0x06, 0x07), Word(0x08, 0x09, 0x0a, 0x0b), Word(0x0c, 0x0d, 0x0e, 0x0f))
    case 1 => State(Word(0x10, 0x11, 0x12, 0x13), Word(0x14, 0x15, 0x16, 0x17), Word(0x18, 0x19, 0x1a, 0x1b), Word(0x1c, 0x1d, 0x1e, 0x1f))
    case 2 => State(Word(0xa5, 0x73, 0xc2, 0x9f), Word(0xa1, 0x76, 0xc4, 0x98), Word(0xa9, 0x7f, 0xce, 0x93), Word(0xa5, 0x72, 0xc0, 0x9c))
    case 3 => State(Word(0x16, 0x51, 0xa8, 0xcd), Word(0x02, 0x44, 0xbe, 0xda), Word(0x1a, 0x5d, 0xa4, 0xc1), Word(0x06, 0x40, 0xba, 0xde))
    case 4 => State(Word(0xae, 0x87, 0xdf, 0xf0), Word(0x0f, 0xf1, 0x1b, 0x68), Word(0xa6, 0x8e, 0xd5, 0xfb), Word(0x03, 0xfc, 0x15, 0x67))
    case 5 => State(Word(0x6d, 0xe1, 0xf1, 0x48), Word(0x6f, 0xa5, 0x4f, 0x92), Word(0x75, 0xf8, 0xeb, 0x53), Word(0x73, 0xb8, 0x51, 0x8d))
    case 6 => State(Word(0xc6, 0x56, 0x82, 0x7f), Word(0xc9, 0xa7, 0x99, 0x17), Word(0x6f, 0x29, 0x4c, 0xec), Word(0x6c, 0xd5, 0x59, 0x8b))
    case 7 => State(Word(0x3d, 0xe2, 0x3a, 0x75), Word(0x52, 0x47, 0x75, 0xe7), Word(0x27, 0xbf, 0x9e, 0xb4), Word(0x54, 0x07, 0xcf, 0x39))
    case 8 => State(Word(0x0b, 0xdc, 0x90, 0x5f), Word(0xc2, 0x7b, 0x09, 0x48), Word(0xad, 0x52, 0x45, 0xa4), Word(0xc1, 0x87, 0x1c, 0x2f))
    case 9 => State(Word(0x45, 0xf5, 0xa6, 0x60), Word(0x17, 0xb2, 0xd3, 0x87), Word(0x30, 0x0d, 0x4d, 0x33), Word(0x64, 0x0a, 0x82, 0x0a))
    case 10 => State(Word(0x7c, 0xcf, 0xf7, 0x1c), Word(0xbe, 0xb4, 0xfe, 0x54), Word(0x13, 0xe6, 0xbb, 0xf0), Word(0xd2, 0x61, 0xa7, 0xdf))
    case 11 => State(Word(0xf0, 0x1a, 0xfa, 0xfe), Word(0xe7, 0xa8, 0x29, 0x79), Word(0xd7, 0xa5, 0x64, 0x4a), Word(0xb3, 0xaf, 0xe6, 0x40))
    case 12 => State(Word(0x25, 0x41, 0xfe, 0x71), Word(0x9b, 0xf5, 0x00, 0x25), Word(0x88, 0x13, 0xbb, 0xd5), Word(0x5a, 0x72, 0x1c, 0x0a))
    case 13 => State(Word(0x4e, 0x5a, 0x66, 0x99), Word(0xa9, 0xf2, 0x4f, 0xe0), Word(0x7e, 0x57, 0x2b, 0xaa), Word(0xcd, 0xf8, 0xcd, 0xea))
    case _ => State(Word(0x24, 0xfc, 0x79, 0xcc), Word(0xbf, 0x09, 0x79, 0xe9), Word(0x37, 0x1a, 0xc2, 0x3c), Word(0x6d, 0x68, 0xde, 0x36))
  }

  lemma Subs0a()
    ensures SubWord(Word(0x00, 0x10, 0x20, 0x30)) == Word(0x63, 0xca, 0xb7, 0x04)
    ensures SubWord(Word(0x40, 0x50, 0x60, 0x70)) == Word(0x09, 0x53, 0xd0, 0x51)
  {
  }

  lemma Subs0b()
    ensures SubWord(Word(0x80, 0x90, 0xa0, 0xb0)) == Word(0xcd, 0x60, 0xe0, 0xe7)
    ensures SubWord(Word(0xc0, 0xd0, 0xe0, 0xf0)) == Word(0xba, 0x70, 0xe1, 0x8c)
  {
  }

  lemma Subs1a()
    ensures SubWord(Word(0x4f, 0x63, 0x76, 0x06)) == Word(0x84, 0xfb, 0x38, 0x6f)
    ensures SubWord(Word(0x43, 0xe0, 0xaa, 0x85)) == Word(0x1a, 0xe1, 0xac, 0x97)
  {
  }

  lemma Subs1b()
    ensures SubWord(Word(0xef, 0xa7, 0x21, 0x32)) == Word(0xdf, 0x5c, 0xfd, 0x23)
    ensures SubWord(Word(0x01, 0xa4, 0xe7, 0x05)) == Word(0x7c, 0x49, 0x94, 0x6b)
  {
  }

  lemma Subs2a()
    ensures SubWord(Word(0x18, 0x59, 0xfb, 0xc2)) == Word(0xad, 0xcb, 0x0f, 0x25)
    ensures SubWord(Word(0x8a, 0x1c, 0x00, 0xa0)) == Word(0x7e, 0x9c, 0x63, 0xe0)
  {
  }

  lemma Subs2b()
    ensures SubWord(Word(0x78, 0xed, 0x8a, 0xad)) == Word(0xbc, 0x55, 0x7e, 0x95)
    ensures SubWord(Word(0xc4, 0x2f, 0x61, 0x09)) == Word(0x1c, 0x15, 0xef, 0x01)
  {
  }

  lemma Subs3a()
    ensures SubWord(Word(0x97, 0x5c, 0x66, 0xc1)) == Word(0x88, 0x4a, 0x33, 0x78)
    ensures SubWord(Word(0xcb, 0x9f, 0x3f, 0xa8)) == Word(0x1f, 0xdb, 0x75, 0xc2)
  {
  }

  lemma Subs3b()
    ensures SubWord(Word(0xa9, 0x3a, 0x28, 0xdf)) == Word(0xd3, 0x80, 0x34, 0x9e)
    ensures SubWord(Word(0x8e, 0xe1, 0x0f, 0x63)) == Word(0x19, 0xf8, 0x76, 0xfb)
  {
  }

  lemma Subs4a()
    ensures SubWord(Word(0x1c, 0x05, 0xf2, 0x71)) == Word(0x9c, 0x6b, 0x89, 0xa3)
    ensures SubWord(Word(0xa4, 0x17, 0xe0, 0x4f)) == Word(0x49, 0xf0, 0xe1, 0x84)
  {
  }

  lemma Subs4b()
    ensures SubWord(Word(0xf9, 0x21, 0xc5, 0xc1)) == Word(0x99, 0xfd, 0xa6, 0x78)
    ensures SubWord(Word(0x04, 0x70, 0x15, 0x54)) == Word(0xf2, 0x51, 0x59, 0x20)
  {
  }

  lemma Subs5a()
    ensures SubWord(Word(0xc3, 0x57, 0xaa, 0xe1)) == Word(0x2e, 0x5b, 0xac, 0xf8)
    ensures SubWord(Word(0x1b, 0x45, 0xb7, 0xb0)) == Word(0xaf, 0x6e, 0xa9, 0xe7)
  {
  }

  lemma Subs5b()
    ensures SubWord(Word(0xa2, 0xc7, 0xbd, 0x28)) == Word(0x3a, 0xc6, 0x7a, 0x34)
    ensures SubWord(Word(0xa8, 0xdc, 0x99, 0xfa)) == Word(0xc2, 0x86, 0xee, 0x2d)
  {
  }

  lemma Subs6a()
    ensures SubWord(Word(0x7f, 0x07, 0x41, 0x43)) == Word(0xd2, 0xc5, 0x83, 0x1a)
    ensures SubWord(Word(0xcb, 0x4e, 0x24, 0x3e)) == Word(0x1f, 0x2f, 0x36, 0xb2)
  {
  }

  lemma Subs6b()
    ensures SubWord(Word(0xc1, 0x0c, 0x81, 0x5d)) == Word(0x78, 0xfe, 0x0c, 0x4c)
    ensures SubWord(Word(0x83, 0x75, 0xd5, 0x4c)) == Word(0xec, 0x9d, 0x03, 0x29)
  {
  }

  lemma Subs7a()
    ensures SubWord(Word(0xd6, 0x53, 0xa4, 0x69)) == Word(0xf6, 0xed, 0x49, 0xf9)
    ensures SubWord(Word(0x6c, 0xa0, 0xbc, 0x0f)) == Word(0x50, 0xe0, 0x65, 0x76)
  {
  }

  lemma Subs7b()
    ensures SubWord(Word(0x5a, 0xca, 0xab, 0x5d)) == Word(0xbe, 0x74, 0x62, 0x4c)
    ensures SubWord(Word(0xb9, 0x6c, 0x5e, 0x7d)) == Word(0x56, 0x50, 0x58, 0xff)
  {
  }

  lemma Subs8a()
    ensures SubWord(Word(0x5a, 0xa8, 0x58, 0x39)) == Word(0xbe, 0xc2, 0x6a, 0x12)
    ensures SubWord(Word(0x5f, 0xd2, 0x8d, 0x7d)) == Word(0xcf, 0xb5, 0x5d, 0xff)
  {
  }

  lemma Subs8b()
    ensures SubWord(Word(0x05, 0xe1, 0xa3, 0x88)) == Word(0x6b, 0xf8, 0x0a, 0xc4)
    ensures SubWord(Word(0x68, 0xf3, 0xb9, 0xc5)) == Word(0x45, 0x0d, 0x56, 0xa6)
  {
  }

  lemma Subs9a()
    ensures SubWord(Word(0x4a, 0x82, 0x48, 0x51)) == Word(0xd6, 0x13, 0x52, 0xd1)
    ensures SubWord(Word(0xc5, 0x7e, 0x7e, 0x47)) == Word(0xa6, 0xf3, 0xf3, 0xa0)
  {
  }

  lemma Subs9b()
    ensures SubWord(Word(0x64, 0x3d, 0xe5, 0x0c)) == Word(0x43, 0x27, 0xd9, 0xfe)
    ensures SubWord(Word(0x2a, 0xf3, 0xe8, 0xc9)) == Word(0xe5, 0x0d, 0x9b, 0xdd)
  {
  }

  lemma Subs10a()
    ensures SubWord(Word(0xc1, 0x49, 0x07, 0xf6)) == Word(0x78, 0x3b, 0xc5, 0x42)
    ensures SubWord(Word(0xca, 0x3b, 0x3a, 0xa0)) == Word(0x74, 0xe2, 0x80, 0xe0)
  {
  }

  lemma Subs10b()
    ensures SubWord(Word(0x70, 0xe9, 0xaa, 0x31)) == Word(0x51, 0x1e, 0xac, 0xc7)
    ensures SubWord(Word(0x3b, 0x52, 0xb5, 0xec)) == Word(0xe2, 0x00, 0xd5, 0xce)
  {
  }

  lemma Subs11a()
    ensures SubWord(Word(0x5f, 0x9c, 0x6a, 0xbf)) == Word(0xcf, 0xde, 0x02, 0x08)
    ensures SubWord(Word(0xba, 0xc6, 0x34, 0xaa)) == Word(0xf4, 0xb4, 0x18, 0xac)
  {
  }

  lemma Subs11b()
    ensures SubWord(Word(0x50, 0x40, 0x9f, 0xa7)) == Word(0x53, 0x09, 0xdb, 0x5c)
    ensures SubWord(Word(0x66, 0x67, 0x76, 0x53)) == Word(0x33, 0x85, 0x38, 0xed)
  {
  }

  lemma Subs12a()
    ensures SubWord(Word(0x51, 0x66, 0x04, 0x95)) == Word(0xd1, 0x33, 0xf2, 0x2a)
    ensures SubWord(Word(0x43, 0x53, 0x95, 0x03)) == Word(0x1a, 0xed, 0x2a, 0x7b)
  {
  }

  lemma Subs12b()
    ensures SubWord(Word(0x14, 0xfb, 0x86, 0xe4)) == Word(0xfa, 0x0f, 0x44, 0x69)
    ensures SubWord(Word(0x01, 0x92, 0x25, 0x21)) == Word(0x7c, 0x4f, 0x3f, 0xfd)
  {
  }

  lemma Subs13a()
    ensures SubWord(Word(0x62, 0x7b, 0xce, 0xb9)) == Word(0xaa, 0x21, 0x8b, 0x56)
    ensures SubWord(Word(0x99, 0x9d, 0x5a, 0xaa)) == Word(0xee, 0x5e, 0xbe, 0xac)
  {
  }

  lemma Subs13b()
    ensures SubWord(Word(0xc9, 0x45, 0xec, 0xf4)) == Word(0xdd, 0x6e, 0xce, 0xbf)
    ensures SubWord(Word(0x23, 0xf5, 0x6d, 0xa5)) == Word(0x26, 0xe6, 0x3c, 0x06)
  {
  }

  lemma Boxes(i: nat)
    requires i < 14
    ensures SubBytes(At(i)) == Boxed(i)
  {
    hide SubWord;
    match i
    case 0 => Subs0a(); Subs0b();
    case 1 => Subs1a(); Subs1b();
    case 2 => Subs2a(); Subs2b();
    case 3 => Subs3a(); Subs3b();
    case 4 => Subs4a(); Subs4b();
    case 5 => Subs5a(); Subs5b();
    case 6 => Subs6a(); Subs6b();
    case 7 => Subs7a(); Subs7b();
    case 8 => Subs8a(); Subs8b();
    case 9 => Subs9a(); Subs9b();
    case 10 => Subs10a(); Subs10b();
    case 11 => Subs11a(); Subs11b();
    case 12 => Subs12a(); Subs12b();
    case 13 => Subs13a(); Subs13b();
  }

  lemma Mixes0()
    ensures SXor(MixState(ShiftRows(Boxed(0))), Keys(1)) == At(1)
  {
  }

  lemma Mixes1()
    ensures SXor(MixState(ShiftRows(Boxed(1))), Keys(2)) == At(2)
  {
  }

  lemma Mixes2()
    ensures SXor(MixState(ShiftRows(Boxed(2))), Keys(3)) == At(3)
  {
  }

  lemma Mixes3()
    ensures SXor(MixState(ShiftRows(Boxed(3))), Keys(4)) == At(4)
  {
  }

  lemma Mixes4()
    ensures SXor(MixState(ShiftRows(Boxed(4))), Keys(5)) == At(5)
  {
  }

  lemma Mixes5()
    ensures SXor(MixState(ShiftRows(Boxed(5))), Keys(6)) == At(6)
  {
  }

  lemma Mixes6()
    ensures SXor(MixState(ShiftRows(Boxed(6))), Keys(7)) == At(7)
  {
  }

  lemma Mixes7()
    ensures SXor(MixState(ShiftRows(Boxed(7))), Keys(8)) == At(8)
  {
  }

  lemma Mixes8()
    ensures SXor(MixState(ShiftRows(Boxed(8))), Keys(9)) == At(9)
  {
  }

  lemma Mixes9()
    ensures SXor(MixState(ShiftRows(Boxed(9))), Keys(10)) == At(10)
  {
  }

  lemma Mixes10()
    ensures SXor(MixState(ShiftRows(Boxed(10))), Keys(11)) == At(11)
  {
  }

  lemma Mixes11()
    ensures SXor(MixState(ShiftRows(Boxed(11))), Keys(12)) == At(12)
  {
  }

  lemma Mixes12()
    ensures SXor(MixState(ShiftRows(Boxed(12))), Keys(13)) == At(13)
  {
  }

  lemma KeySubs0()
    ensures SubWord(RotWord(Word(0x1c, 0x1d, 0x1e, 0x1f))) == Word(0xa4, 0x72, 0xc0, 0x9c)
    ensures SubWord(Word(0xa5, 0x72, 0xc0, 0x9c)) == Word(0x06, 0x40, 0xba, 0xde)
  {
  }

  lemma KeySubs1()
    ensures SubWord(RotWord(Word(0x06, 0x40, 0xba, 0xde))) == Word(0x09, 0xf4, 0x1d, 0x6f)
    ensures SubWord(Word(0x03, 0xfc, 0x15, 0x67)) == Word(0x7b, 0xb0, 0x59, 0x85)
  {
  }

  lemma KeySubs2()
    ensures SubWord(RotWord(Word(0x73, 0xb8, 0x51, 0x8d))) == Word(0x6c, 0xd1, 0x5d, 0x8f)
    ensures SubWord(Word(0x6c, 0xd5, 0x59, 0x8b)) == Word(0x50, 0x03, 0xcb, 0x3d)
  {
  }

  lemma KeySubs3()
    ensures SubWord(RotWord(Word(0x54, 0x07, 0xcf, 0x39))) == Word(0xc5, 0x8a, 0x12, 0x20)
    ensures SubWord(Word(0xc1, 0x87, 0x1c, 0x2f)) == Word(0x78, 0x17, 0x9c, 0x15)
  {
  }

  lemma KeySubs4()
    ensures SubWord(RotWord(Word(0x64, 0x0a, 0x82, 0x0a))) == Word(0x67, 0x13, 0x67, 0x43)
    ensures SubWord(Word(0xd2, 0x61, 0xa7, 0xdf)) == Word(0xb5, 0xef, 0x5c, 0x9e)
  {
  }

  lemma KeySubs5()
    ensures SubWord(RotWord(Word(0xb3, 0xaf, 0xe6, 0x40))) == Word(0x79, 0x8e, 0x09, 0x6d)
    ensures SubWord(Word(0x5a, 0x72, 0x1c, 0x0a)) == Word(0xbe, 0x40, 0x9c, 0x67)
  {
  }

  lemma KeySubs6()
    ensures SubWord(RotWord(Word(0xcd, 0xf8, 0xcd, 0xea))) == Word(0x41, 0xbd, 0x87, 0xbd)
  {
  }

  lemma Firsts(r: nat)
    requires r < 7
    ensures FirstFour(Keys(2 * r), Keys(2 * r + 1).s3, Rcon(r)) == Keys(2 * r + 2)
  {
    hide SubWord, RotWord, Rcon;
    RconIs();
    match r
    case 0 => KeySubs0();
    case 1 => KeySubs1();
    case 2 => KeySubs2();
    case 3 => KeySubs3();
    case 4 => KeySubs4();
    case 5 => KeySubs5();
    case 6 => KeySubs6();
  }

  lemma Seconds(r: nat)
    requires r < 6
    ensures SecondFour(Keys(2 * r + 1), Keys(2 * r + 2).s3) == Keys(2 * r + 3)
  {
    hide SubWord, RotWord;
    match r
    case 0 => KeySubs0();
    case 1 => KeySubs1();
    case 2 => KeySubs2();
    case 3 => KeySubs3();
    case 4 => KeySubs4();
    case 5 => KeySubs5();
  }

  const KEY: seq<Byte> := [
    0x00, 0x01, 0x02, 0x03, 0x04, 0x05, 0x06, 0x07, 0x08, 0x09, 0x0a, 0x0b, 0x0c, 0x0d, 0x0e, 0x0f,
    0x10, 0x11, 0x12, 0x13, 0x14, 0x15, 0x16, 0x17, 0x18, 0x19, 0x1a, 0x1b, 0x1c, 0x1d, 0x1e, 0x1f]

  lemma FirstKeys()
    ensures Four(KeyWords(KEY), 0) == Keys(0) && Four(KeyWords(KEY), 1) == Keys(1)
  {
  }

  lemma {:induction false} Schedule(i: nat)
    requires i < 15
    ensures Four(KeyWords(KEY), i) == Keys(i)
  {
    hide Keys, Four, FirstFour, SecondFour, KEY, KeyWords, Rcon;
    KeySize();
    if i < 2 {
      FirstKeys();
    } else if i % 2 == 0 {
      Schedule(i - 2);
      Schedule(i - 1);
      NextFirst(KeyWords(KEY), i / 2 - 1);
      Firsts(i / 2 - 1);
    } else {
      Schedule(i - 2);
      Schedule(i - 1);
      NextSecond(KeyWords(KEY), i / 2 - 1);
      Seconds(i / 2 - 1);
    }
  }

  lemma KeySize()
    ensures |KEY| == 32
  {
  }

  lemma {:induction false} Reaches(i: nat)
    requires i <= 13
    ensures EncRounds(EncKeys(KEY), At0(), i) == At(i)
  {
    hide EncKeys, KEY, At, Boxed, Keys, At0, EncRound, RoundKey, SXor, MixState, ShiftRows, SubBytes;
    KeySize();
    Schedule(i);
    RoundKeyIs(KEY, i);
    if i == 0 {
      Start();
    } else {
      Reaches(i - 1);
      EncRoundSteps(At(i - 1), Keys(i));
      Boxes(i - 1);
      Mixes(i);
    }
  }

  const PLAIN: seq<Byte> := [
    0x00, 0x11, 0x22, 0x33, 0x44, 0x55, 0x66, 0x77, 0x88, 0x99, 0xaa, 0xbb, 0xcc, 0xdd, 0xee, 0xff]

  function At0(): State { ToState(PLAIN) }

  lemma Start()
    ensures SXor(At0(), Keys(0)) == At(0)
  {
  }

  lemma Mixes(i: nat)
    requires 1 <= i <= 13
    ensures SXor(MixState(ShiftRows(Boxed(i - 1))), Keys(i)) == At(i)
  {
    hide Keys, At, Boxed, SXor, MixState, ShiftRows;
    match i
    case 1 => Mixes0();
    case 2 => Mixes1();
    case 3 => Mixes2();
    case 4 => Mixes3();
    case 5 => Mixes4();
    case 6 => Mixes5();
    case 7 => Mixes6();
    case 8 => Mixes7();
    case 9 => Mixes8();
    case 10 => Mixes9();
    case 11 => Mixes10();
    case 12 => Mixes11();
    case 13 => Mixes12();
  }

  lemma Final()
    ensures ToBytes(SXor(ShiftRows(Boxed(13)), Keys(14))) == [
              0x8e, 0xa2, 0xb7, 0xca, 0x51, 0x67, 0x45, 0xbf, 0xea, 0xfc, 0x49, 0x90, 0x4b, 0x49, 0x60, 0x89]
  {
  }

  lemma BlockOfC3()
    ensures ToBytes(EncBlock(EncKeys(KEY), ToState(PLAIN))) == [
              0x8e, 0xa2, 0xb7, 0xca, 0x51, 0x67, 0x45, 0xbf, 0xea, 0xfc, 0x49, 0x90, 0x4b, 0x49, 0x60, 0x89]
  {
    hide EncKeys, KEY, At, Boxed, Keys, LastEncRound, EncRounds, RoundKey, SXor, ShiftRows, SubBytes, ToBytes, ToState, PLAIN;
    KeySize();
    Reaches(13);
    Schedule(14);
    RoundKeyIs(KEY, 14);
    EncRoundSteps(At(13), Keys(14));
    Boxes(13);
    Final();
  }

  const A3: seq<Word> := [
    Word(0x60, 0x3d, 0xeb, 0x10),
    Word(0x15, 0xca, 0x71, 0xbe),
    Word(0x2b, 0x73, 0xae, 0xf0),
    Word(0x85, 0x7d, 0x77, 0x81),
    Word(0x1f, 0x35, 0x2c, 0x07),
    Word(0x3b, 0x61, 0x08, 0xd7),
    Word(0x2d, 0x98, 0x10, 0xa3),
    Word(0x09, 0x14, 0xdf, 0xf4)]

  lemma GivenWords(key: seq<Word>)
    requires |key| == 8
    ensures KeyWord(key, 0) == key[0] && KeyWord(key, 7) == key[7]
  {
  }

  lemma SubOfA3()
    ensures SubWord(RotWord(Word(0x09, 0x14, 0xdf, 0xf4))) == Word(0xfa, 0x9e, 0xbf, 0x01)
  {
  }

  /** Word 8 of appendix A.3. */
  lemma WordOfA3()
    ensures KeyWord(A3, 8) == Word(0x9b, 0xa3, 0x54, 0x11)
  {
    hide KeyWord, Rcon, SubWord, RotWord;
    RconIs();
    NextWord(A3, 0, 0);
    GivenWords(A3);
    SubOfA3();
  }
}
