/**
  The two constant tables of `src/shamir.rs` and the two facts that tie them together.

  GF256_EXP lists the powers of the generator 0xe5 and GF256_LOG the exponents. Each table
  is a function on positions, one function per row of sixteen entries; the checks of the
  tables go row by row too, which keeps each of them a small evaluation.
  */
module Gf256Tables {

  /** gf256_add: bytes are polynomials over GF(2). */
  function Add(a: bv8, b: bv8): bv8 {
    a ^ b
  }

  /** What reduction by x^8 + x^4 + x^3 + x + 1 adds to a shifted byte. */
  function Reduction(a: bv8): bv8 {
    if a & 0x80 == 0 then 0 else 0x1b
  }

  /** Multiplication by x in the field of section 4.2.1 of FIPS 197. */
  function Xtime(a: bv8): bv8 {
    Add(a << 1, Reduction(a))
  }

  /** Multiplication by the generator 0xe5, that is x^7 + x^6 + x^5 + x^2 + 1. */
  function TimesGenerator(a: bv8): bv8 {
    var a2 := Xtime(Xtime(a));
    var a5 := Xtime(Xtime(Xtime(a2)));
    Add(Add(Add(Add(a, a2), a5), Xtime(a5)), Xtime(Xtime(a5)))
  }

  function Exp0(k: nat): bv8 {
    match k
    case 0 => 0x01 case 1 => 0xe5 case 2 => 0x4c case 3 => 0xb5 case 4 => 0xfb case 5 => 0x9f case 6 => 0xfc case 7 => 0x12
    case 8 => 0x03 case 9 => 0x34 case 10 => 0xd4 case 11 => 0xc4 case 12 => 0x16 case 13 => 0xba case 14 => 0x1f case _ => 0x36
  }

  function Exp16(k: nat): bv8 {
    match k
    case 16 => 0x05 case 17 => 0x5c case 18 => 0x67 case 19 => 0x57 case 20 => 0x3a case 21 => 0xd5 case 22 => 0x21 case 23 => 0x5a
    case 24 => 0x0f case 25 => 0xe4 case 26 => 0xa9 case 27 => 0xf9 case 28 => 0x4e case 29 => 0x64 case 30 => 0x63 case _ => 0xee
  }

  function Exp32(k: nat): bv8 {
    match k
    case 32 => 0x11 case 33 => 0x37 case 34 => 0xe0 case 35 => 0x10 case 36 => 0xd2 case 37 => 0xac case 38 => 0xa5 case 39 => 0x29
    case 40 => 0x33 case 41 => 0x59 case 42 => 0x3b case 43 => 0x30 case 44 => 0x6d case 45 => 0xef case 46 => 0xf4 case _ => 0x7b
  }

  function Exp48(k: nat): bv8 {
    match k
    case 48 => 0x55 case 49 => 0xeb case 50 => 0x4d case 51 => 0x50 case 52 => 0xb7 case 53 => 0x2a case 54 => 0x07 case 55 => 0x8d
    case 56 => 0xff case 57 => 0x26 case 58 => 0xd7 case 59 => 0xf0 case 60 => 0xc2 case 61 => 0x7e case 62 => 0x09 case _ => 0x8c
  }

  function Exp64(k: nat): bv8 {
    match k
    case 64 => 0x1a case 65 => 0x6a case 66 => 0x62 case 67 => 0x0b case 68 => 0x5d case 69 => 0x82 case 70 => 0x1b case 71 => 0x8f
    case 72 => 0x2e case 73 => 0xbe case 74 => 0xa6 case 75 => 0x1d case 76 => 0xe7 case 77 => 0x9d case 78 => 0x2d case _ => 0x8a
  }

  function Exp80(k: nat): bv8 {
    match k
    case 80 => 0x72 case 81 => 0xd9 case 82 => 0xf1 case 83 => 0x27 case 84 => 0x32 case 85 => 0xbc case 86 => 0x77 case 87 => 0x85
    case 88 => 0x96 case 89 => 0x70 case 90 => 0x08 case 91 => 0x69 case 92 => 0x56 case 93 => 0xdf case 94 => 0x99 case _ => 0x94
  }

  function Exp96(k: nat): bv8 {
    match k
    case 96 => 0xa1 case 97 => 0x90 case 98 => 0x18 case 99 => 0xbb case 100 => 0xfa case 101 => 0x7a case 102 => 0xb0 case 103 => 0xa7
    case 104 => 0xf8 case 105 => 0xab case 106 => 0x28 case 107 => 0xd6 case 108 => 0x15 case 109 => 0x8e case 110 => 0xcb case _ => 0xf2
  }

  function Exp112(k: nat): bv8 {
    match k
    case 112 => 0x13 case 113 => 0xe6 case 114 => 0x78 case 115 => 0x61 case 116 => 0x3f case 117 => 0x89 case 118 => 0x46 case 119 => 0x0d
    case 120 => 0x35 case 121 => 0x31 case 122 => 0x88 case 123 => 0xa3 case 124 => 0x41 case 125 => 0x80 case 126 => 0xca case _ => 0x17
  }

  function Exp128(k: nat): bv8 {
    match k
    case 128 => 0x5f case 129 => 0x53 case 130 => 0x83 case 131 => 0xfe case 132 => 0xc3 case 133 => 0x9b case 134 => 0x45 case 135 => 0x39
    case 136 => 0xe1 case 137 => 0xf5 case 138 => 0x9e case 139 => 0x19 case 140 => 0x5e case 141 => 0xb6 case 142 => 0xcf case _ => 0x4b
  }

  function Exp144(k: nat): bv8 {
    match k
    case 144 => 0x38 case 145 => 0x04 case 146 => 0xb9 case 147 => 0x2b case 148 => 0xe2 case 149 => 0xc1 case 150 => 0x4a case 151 => 0xdd
    case 152 => 0x48 case 153 => 0x0c case 154 => 0xd0 case 155 => 0x7d case 156 => 0x3d case 157 => 0x58 case 158 => 0xde case _ => 0x7c
  }

  function Exp160(k: nat): bv8 {
    match k
    case 160 => 0xd8 case 161 => 0x14 case 162 => 0x6b case 163 => 0x87 case 164 => 0x47 case 165 => 0xe8 case 166 => 0x79 case 167 => 0x84
    case 168 => 0x73 case 169 => 0x3c case 170 => 0xbd case 171 => 0x92 case 172 => 0xc9 case 173 => 0x23 case 174 => 0x8b case _ => 0x97
  }

  function Exp176(k: nat): bv8 {
    match k
    case 176 => 0x95 case 177 => 0x44 case 178 => 0xdc case 179 => 0xad case 180 => 0x40 case 181 => 0x65 case 182 => 0x86 case 183 => 0xa2
    case 184 => 0xa4 case 185 => 0xcc case 186 => 0x7f case 187 => 0xec case 188 => 0xc0 case 189 => 0xaf case 190 => 0x91 case _ => 0xfd
  }

  function Exp192(k: nat): bv8 {
    match k
    case 192 => 0xf7 case 193 => 0x4f case 194 => 0x81 case 195 => 0x2f case 196 => 0x5b case 197 => 0xea case 198 => 0xa8 case 199 => 0x1c
    case 200 => 0x02 case 201 => 0xd1 case 202 => 0x98 case 203 => 0x71 case 204 => 0xed case 205 => 0x25 case 206 => 0xe3 case _ => 0x24
  }

  function Exp208(k: nat): bv8 {
    match k
    case 208 => 0x06 case 209 => 0x68 case 210 => 0xb3 case 211 => 0x93 case 212 => 0x2c case 213 => 0x6f case 214 => 0x3e case 215 => 0x6c
    case 216 => 0x0a case 217 => 0xb8 case 218 => 0xce case 219 => 0xae case 220 => 0x74 case 221 => 0xb1 case 222 => 0x42 case _ => 0xb4
  }

  function Exp224(k: nat): bv8 {
    match k
    case 224 => 0x1e case 225 => 0xd3 case 226 => 0x49 case 227 => 0xe9 case 228 => 0x9c case 229 => 0xc8 case 230 => 0xc6 case 231 => 0xc7
    case 232 => 0x22 case 233 => 0x6e case 234 => 0xdb case 235 => 0x20 case 236 => 0xbf case 237 => 0x43 case 238 => 0x51 case _ => 0x52
  }

  function Exp240(k: nat): bv8 {
    match k
    case 240 => 0x66 case 241 => 0xb2 case 242 => 0x76 case 243 => 0x60 case 244 => 0xda case 245 => 0xc5 case 246 => 0xf3 case 247 => 0xf6
    case 248 => 0xaa case 249 => 0xcd case 250 => 0x9a case 251 => 0xa0 case 252 => 0x75 case 253 => 0x54 case 254 => 0x0e case _ => 0x01
  }

  /** GF256_EXP */
  function Exp(k: nat): bv8
    requires k < 256
  {
    if k < 16 then Exp0(k) else if k < 32 then Exp16(k)
    else if k < 48 then Exp32(k) else if k < 64 then Exp48(k)
    else if k < 80 then Exp64(k) else if k < 96 then Exp80(k)
    else if k < 112 then Exp96(k) else if k < 128 then Exp112(k)
    else if k < 144 then Exp128(k) else if k < 160 then Exp144(k)
    else if k < 176 then Exp160(k) else if k < 192 then Exp176(k)
    else if k < 208 then Exp192(k) else if k < 224 then Exp208(k)
    else if k < 240 then Exp224(k) else Exp240(k)
  }

  function Log0(a: bv8): nat {
    match a
    case 0x00 => 0x00 case 0x01 => 0xff case 0x02 => 0xc8 case 0x03 => 0x08 case 0x04 => 0x91 case 0x05 => 0x10 case 0x06 => 0xd0 case 0x07 => 0x36
    case 0x08 => 0x5a case 0x09 => 0x3e case 0x0a => 0xd8 case 0x0b => 0x43 case 0x0c => 0x99 case 0x0d => 0x77 case 0x0e => 0xfe case _ => 0x18
  }

  function Log16(a: bv8): nat {
    match a
    case 0x10 => 0x23 case 0x11 => 0x20 case 0x12 => 0x07 case 0x13 => 0x70 case 0x14 => 0xa1 case 0x15 => 0x6c case 0x16 => 0x0c case 0x17 => 0x7f
    case 0x18 => 0x62 case 0x19 => 0x8b case 0x1a => 0x40 case 0x1b => 0x46 case 0x1c => 0xc7 case 0x1d => 0x4b case 0x1e => 0xe0 case _ => 0x0e
  }

  function Log32(a: bv8): nat {
    match a
    case 0x20 => 0xeb case 0x21 => 0x16 case 0x22 => 0xe8 case 0x23 => 0xad case 0x24 => 0xcf case 0x25 => 0xcd case 0x26 => 0x39 case 0x27 => 0x53
    case 0x28 => 0x6a case 0x29 => 0x27 case 0x2a => 0x35 case 0x2b => 0x93 case 0x2c => 0xd4 case 0x2d => 0x4e case 0x2e => 0x48 case _ => 0xc3
  }

  function Log48(a: bv8): nat {
    match a
    case 0x30 => 0x2b case 0x31 => 0x79 case 0x32 => 0x54 case 0x33 => 0x28 case 0x34 => 0x09 case 0x35 => 0x78 case 0x36 => 0x0f case 0x37 => 0x21
    case 0x38 => 0x90 case 0x39 => 0x87 case 0x3a => 0x14 case 0x3b => 0x2a case 0x3c => 0xa9 case 0x3d => 0x9c case 0x3e => 0xd6 case _ => 0x74
  }

  function Log64(a: bv8): nat {
    match a
    case 0x40 => 0xb4 case 0x41 => 0x7c case 0x42 => 0xde case 0x43 => 0xed case 0x44 => 0xb1 case 0x45 => 0x86 case 0x46 => 0x76 case 0x47 => 0xa4
    case 0x48 => 0x98 case 0x49 => 0xe2 case 0x4a => 0x96 case 0x4b => 0x8f case 0x4c => 0x02 case 0x4d => 0x32 case 0x4e => 0x1c case _ => 0xc1
  }

  function Log80(a: bv8): nat {
    match a
    case 0x50 => 0x33 case 0x51 => 0xee case 0x52 => 0xef case 0x53 => 0x81 case 0x54 => 0xfd case 0x55 => 0x30 case 0x56 => 0x5c case 0x57 => 0x13
    case 0x58 => 0x9d case 0x59 => 0x29 case 0x5a => 0x17 case 0x5b => 0xc4 case 0x5c => 0x11 case 0x5d => 0x44 case 0x5e => 0x8c case _ => 0x80
  }

  function Log96(a: bv8): nat {
    match a
    case 0x60 => 0xf3 case 0x61 => 0x73 case 0x62 => 0x42 case 0x63 => 0x1e case 0x64 => 0x1d case 0x65 => 0xb5 case 0x66 => 0xf0 case 0x67 => 0x12
    case 0x68 => 0xd1 case 0x69 => 0x5b case 0x6a => 0x41 case 0x6b => 0xa2 case 0x6c => 0xd7 case 0x6d => 0x2c case 0x6e => 0xe9 case _ => 0xd5
  }

  function Log112(a: bv8): nat {
    match a
    case 0x70 => 0x59 case 0x71 => 0xcb case 0x72 => 0x50 case 0x73 => 0xa8 case 0x74 => 0xdc case 0x75 => 0xfc case 0x76 => 0xf2 case 0x77 => 0x56
    case 0x78 => 0x72 case 0x79 => 0xa6 case 0x7a => 0x65 case 0x7b => 0x2f case 0x7c => 0x9f case 0x7d => 0x9b case 0x7e => 0x3d case _ => 0xba
  }

  function Log128(a: bv8): nat {
    match a
    case 0x80 => 0x7d case 0x81 => 0xc2 case 0x82 => 0x45 case 0x83 => 0x82 case 0x84 => 0xa7 case 0x85 => 0x57 case 0x86 => 0xb6 case 0x87 => 0xa3
    case 0x88 => 0x7a case 0x89 => 0x75 case 0x8a => 0x4f case 0x8b => 0xae case 0x8c => 0x3f case 0x8d => 0x37 case 0x8e => 0x6d case _ => 0x47
  }

  function Log144(a: bv8): nat {
    match a
    case 0x90 => 0x61 case 0x91 => 0xbe case 0x92 => 0xab case 0x93 => 0xd3 case 0x94 => 0x5f case 0x95 => 0xb0 case 0x96 => 0x58 case 0x97 => 0xaf
    case 0x98 => 0xca case 0x99 => 0x5e case 0x9a => 0xfa case 0x9b => 0x85 case 0x9c => 0xe4 case 0x9d => 0x4d case 0x9e => 0x8a case _ => 0x05
  }

  function Log160(a: bv8): nat {
    match a
    case 0xa0 => 0xfb case 0xa1 => 0x60 case 0xa2 => 0xb7 case 0xa3 => 0x7b case 0xa4 => 0xb8 case 0xa5 => 0x26 case 0xa6 => 0x4a case 0xa7 => 0x67
    case 0xa8 => 0xc6 case 0xa9 => 0x1a case 0xaa => 0xf8 case 0xab => 0x69 case 0xac => 0x25 case 0xad => 0xb3 case 0xae => 0xdb case _ => 0xbd
  }

  function Log176(a: bv8): nat {
    match a
    case 0xb0 => 0x66 case 0xb1 => 0xdd case 0xb2 => 0xf1 case 0xb3 => 0xd2 case 0xb4 => 0xdf case 0xb5 => 0x03 case 0xb6 => 0x8d case 0xb7 => 0x34
    case 0xb8 => 0xd9 case 0xb9 => 0x92 case 0xba => 0x0d case 0xbb => 0x63 case 0xbc => 0x55 case 0xbd => 0xaa case 0xbe => 0x49 case _ => 0xec
  }

  function Log192(a: bv8): nat {
    match a
    case 0xc0 => 0xbc case 0xc1 => 0x95 case 0xc2 => 0x3c case 0xc3 => 0x84 case 0xc4 => 0x0b case 0xc5 => 0xf5 case 0xc6 => 0xe6 case 0xc7 => 0xe7
    case 0xc8 => 0xe5 case 0xc9 => 0xac case 0xca => 0x7e case 0xcb => 0x6e case 0xcc => 0xb9 case 0xcd => 0xf9 case 0xce => 0xda case _ => 0x8e
  }

  function Log208(a: bv8): nat {
    match a
    case 0xd0 => 0x9a case 0xd1 => 0xc9 case 0xd2 => 0x24 case 0xd3 => 0xe1 case 0xd4 => 0x0a case 0xd5 => 0x15 case 0xd6 => 0x6b case 0xd7 => 0x3a
    case 0xd8 => 0xa0 case 0xd9 => 0x51 case 0xda => 0xf4 case 0xdb => 0xea case 0xdc => 0xb2 case 0xdd => 0x97 case 0xde => 0x9e case _ => 0x5d
  }

  function Log224(a: bv8): nat {
    match a
    case 0xe0 => 0x22 case 0xe1 => 0x88 case 0xe2 => 0x94 case 0xe3 => 0xce case 0xe4 => 0x19 case 0xe5 => 0x01 case 0xe6 => 0x71 case 0xe7 => 0x4c
    case 0xe8 => 0xa5 case 0xe9 => 0xe3 case 0xea => 0xc5 case 0xeb => 0x31 case 0xec => 0xbb case 0xed => 0xcc case 0xee => 0x1f case _ => 0x2d
  }

  function Log240(a: bv8): nat {
    match a
    case 0xf0 => 0x3b case 0xf1 => 0x52 case 0xf2 => 0x6f case 0xf3 => 0xf6 case 0xf4 => 0x2e case 0xf5 => 0x89 case 0xf6 => 0xf7 case 0xf7 => 0xc0
    case 0xf8 => 0x68 case 0xf9 => 0x1b case 0xfa => 0x64 case 0xfb => 0x04 case 0xfc => 0x06 case 0xfd => 0xbf case 0xfe => 0x83 case _ => 0x38
  }

  /** GF256_LOG */
  function Log(a: bv8): nat
  {
    if a < 0x10 then Log0(a) else if a < 0x20 then Log16(a)
    else if a < 0x30 then Log32(a) else if a < 0x40 then Log48(a)
    else if a < 0x50 then Log64(a) else if a < 0x60 then Log80(a)
    else if a < 0x70 then Log96(a) else if a < 0x80 then Log112(a)
    else if a < 0x90 then Log128(a) else if a < 0xa0 then Log144(a)
    else if a < 0xb0 then Log160(a) else if a < 0xc0 then Log176(a)
    else if a < 0xd0 then Log192(a) else if a < 0xe0 then Log208(a)
    else if a < 0xf0 then Log224(a) else Log240(a)
  }

  lemma ExpNonzero(k: nat)
    requires k < 256
    ensures Exp(k) != 0
  {}

  lemma ExpStepFrom0(k: nat)
    requires 0 <= k < 32
    ensures Exp(k + 1) == TimesGenerator(Exp(k))
  {
    match k {
      case 0 => case 1 => case 2 => case 3 => case 4 => case 5 => case 6 => case 7 => case 8 => case 9 => case 10 => case 11 => case 12 => case 13 => case 14 => case 15 =>
      case 16 => case 17 => case 18 => case 19 => case 20 => case 21 => case 22 => case 23 => case 24 => case 25 => case 26 => case 27 => case 28 => case 29 => case 30 =>
      case _ =>
    }
  }

  lemma ExpStepFrom32(k: nat)
    requires 32 <= k < 64
    ensures Exp(k + 1) == TimesGenerator(Exp(k))
  {
    match k {
      case 32 => case 33 => case 34 => case 35 => case 36 => case 37 => case 38 => case 39 => case 40 => case 41 => case 42 => case 43 => case 44 => case 45 => case 46 => case 47 =>
      case 48 => case 49 => case 50 => case 51 => case 52 => case 53 => case 54 => case 55 => case 56 => case 57 => case 58 => case 59 => case 60 => case 61 => case 62 =>
      case _ =>
    }
  }

  lemma ExpStepFrom64(k: nat)
    requires 64 <= k < 96
    ensures Exp(k + 1) == TimesGenerator(Exp(k))
  {
    match k {
      case 64 => case 65 => case 66 => case 67 => case 68 => case 69 => case 70 => case 71 => case 72 => case 73 => case 74 => case 75 => case 76 => case 77 => case 78 => case 79 =>
      case 80 => case 81 => case 82 => case 83 => case 84 => case 85 => case 86 => case 87 => case 88 => case 89 => case 90 => case 91 => case 92 => case 93 => case 94 =>
      case _ =>
    }
  }

  lemma ExpStepFrom96(k: nat)
    requires 96 <= k < 128
    ensures Exp(k + 1) == TimesGenerator(Exp(k))
  {
    match k {
      case 96 => case 97 => case 98 => case 99 => case 100 => case 101 => case 102 => case 103 => case 104 => case 105 => case 106 => case 107 => case 108 => case 109 => case 110 => case 111 =>
      case 112 => case 113 => case 114 => case 115 => case 116 => case 117 => case 118 => case 119 => case 120 => case 121 => case 122 => case 123 => case 124 => case 125 => case 126 =>
      case _ =>
    }
  }

  lemma ExpStepFrom128(k: nat)
    requires 128 <= k < 160
    ensures Exp(k + 1) == TimesGenerator(Exp(k))
  {
    match k {
      case 128 => case 129 => case 130 => case 131 => case 132 => case 133 => case 134 => case 135 => case 136 => case 137 => case 138 => case 139 => case 140 => case 141 => case 142 => case 143 =>
      case 144 => case 145 => case 146 => case 147 => case 148 => case 149 => case 150 => case 151 => case 152 => case 153 => case 154 => case 155 => case 156 => case 157 => case 158 =>
      case _ =>
    }
  }

  lemma ExpStepFrom160(k: nat)
    requires 160 <= k < 192
    ensures Exp(k + 1) == TimesGenerator(Exp(k))
  {
    match k {
      case 160 => case 161 => case 162 => case 163 => case 164 => case 165 => case 166 => case 167 => case 168 => case 169 => case 170 => case 171 => case 172 => case 173 => case 174 => case 175 =>
      case 176 => case 177 => case 178 => case 179 => case 180 => case 181 => case 182 => case 183 => case 184 => case 185 => case 186 => case 187 => case 188 => case 189 => case 190 =>
      case _ =>
    }
  }

  lemma ExpStepFrom192(k: nat)
    requires 192 <= k < 224
    ensures Exp(k + 1) == TimesGenerator(Exp(k))
  {
    match k {
      case 192 => case 193 => case 194 => case 195 => case 196 => case 197 => case 198 => case 199 => case 200 => case 201 => case 202 => case 203 => case 204 => case 205 => case 206 => case 207 =>
      case 208 => case 209 => case 210 => case 211 => case 212 => case 213 => case 214 => case 215 => case 216 => case 217 => case 218 => case 219 => case 220 => case 221 => case 222 =>
      case _ =>
    }
  }

  lemma ExpStepFrom224(k: nat)
    requires 224 <= k < 255
    ensures Exp(k + 1) == TimesGenerator(Exp(k))
  {
    match k {
      case 224 => case 225 => case 226 => case 227 => case 228 => case 229 => case 230 => case 231 => case 232 => case 233 => case 234 => case 235 => case 236 => case 237 => case 238 => case 239 =>
      case 240 => case 241 => case 242 => case 243 => case 244 => case 245 => case 246 => case 247 => case 248 => case 249 => case 250 => case 251 => case 252 => case 253 =>
      case _ =>
    }
  }

  /** Every entry of GF256_EXP is the previous one times the generator. */
  lemma ExpStep(k: nat)
    requires k < 255
    ensures Exp(k + 1) == TimesGenerator(Exp(k))
  {
    if k < 32 { ExpStepFrom0(k); } else if k < 64 { ExpStepFrom32(k); } else
    if k < 96 { ExpStepFrom64(k); } else if k < 128 { ExpStepFrom96(k); } else
    if k < 160 { ExpStepFrom128(k); } else if k < 192 { ExpStepFrom160(k); } else
    if k < 224 { ExpStepFrom192(k); } else { ExpStepFrom224(k); }
  }

  lemma ExpLogFrom1(a: bv8)
    requires 0x01 <= a < 0x10
    ensures Log(a) < 256 && Exp(Log(a)) == a
  {
    match a {
      case 0x01 => case 0x02 => case 0x03 => case 0x04 => case 0x05 => case 0x06 => case 0x07 => case 0x08 => case 0x09 => case 0x0a => case 0x0b => case 0x0c => case 0x0d => case 0x0e =>
      case _ =>
    }
  }

  lemma ExpLogFrom16(a: bv8)
    requires 0x10 <= a < 0x20
    ensures Log(a) < 256 && Exp(Log(a)) == a
  {
    match a {
      case 0x10 => case 0x11 => case 0x12 => case 0x13 => case 0x14 => case 0x15 => case 0x16 => case 0x17 => case 0x18 => case 0x19 => case 0x1a => case 0x1b => case 0x1c => case 0x1d => case 0x1e =>
      case _ =>
    }
  }

  lemma ExpLogFrom32(a: bv8)
    requires 0x20 <= a < 0x30
    ensures Log(a) < 256 && Exp(Log(a)) == a
  {
    match a {
      case 0x20 => case 0x21 => case 0x22 => case 0x23 => case 0x24 => case 0x25 => case 0x26 => case 0x27 => case 0x28 => case 0x29 => case 0x2a => case 0x2b => case 0x2c => case 0x2d => case 0x2e =>
      case _ =>
    }
  }

  lemma ExpLogFrom48(a: bv8)
    requires 0x30 <= a < 0x40
    ensures Log(a) < 256 && Exp(Log(a)) == a
  {
    match a {
      case 0x30 => case 0x31 => case 0x32 => case 0x33 => case 0x34 => case 0x35 => case 0x36 => case 0x37 => case 0x38 => case 0x39 => case 0x3a => case 0x3b => case 0x3c => case 0x3d => case 0x3e =>
      case _ =>
    }
  }

  lemma ExpLogFrom64(a: bv8)
    requires 0x40 <= a < 0x50
    ensures Log(a) < 256 && Exp(Log(a)) == a
  {
    match a {
      case 0x40 => case 0x41 => case 0x42 => case 0x43 => case 0x44 => case 0x45 => case 0x46 => case 0x47 => case 0x48 => case 0x49 => case 0x4a => case 0x4b => case 0x4c => case 0x4d => case 0x4e =>
      case _ =>
    }
  }

  lemma ExpLogFrom80(a: bv8)
    requires 0x50 <= a < 0x60
    ensures Log(a) < 256 && Exp(Log(a)) == a
  {
    match a {
      case 0x50 => case 0x51 => case 0x52 => case 0x53 => case 0x54 => case 0x55 => case 0x56 => case 0x57 => case 0x58 => case 0x59 => case 0x5a => case 0x5b => case 0x5c => case 0x5d => case 0x5e =>
      case _ =>
    }
  }

  lemma ExpLogFrom96(a: bv8)
    requires 0x60 <= a < 0x70
    ensures Log(a) < 256 && Exp(Log(a)) == a
  {
    match a {
      case 0x60 => case 0x61 => case 0x62 => case 0x63 => case 0x64 => case 0x65 => case 0x66 => case 0x67 => case 0x68 => case 0x69 => case 0x6a => case 0x6b => case 0x6c => case 0x6d => case 0x6e =>
      case _ =>
    }
  }

  lemma ExpLogFrom112(a: bv8)
    requires 0x70 <= a < 0x80
    ensures Log(a) < 256 && Exp(Log(a)) == a
  {
    match a {
      case 0x70 => case 0x71 => case 0x72 => case 0x73 => case 0x74 => case 0x75 => case 0x76 => case 0x77 => case 0x78 => case 0x79 => case 0x7a => case 0x7b => case 0x7c => case 0x7d => case 0x7e =>
      case _ =>
    }
  }

  lemma ExpLogFrom128(a: bv8)
    requires 0x80 <= a < 0x90
    ensures Log(a) < 256 && Exp(Log(a)) == a
  {
    match a {
      case 0x80 => case 0x81 => case 0x82 => case 0x83 => case 0x84 => case 0x85 => case 0x86 => case 0x87 => case 0x88 => case 0x89 => case 0x8a => case 0x8b => case 0x8c => case 0x8d => case 0x8e =>
      case _ =>
    }
  }

  lemma ExpLogFrom144(a: bv8)
    requires 0x90 <= a < 0xa0
    ensures Log(a) < 256 && Exp(Log(a)) == a
  {
    match a {
      case 0x90 => case 0x91 => case 0x92 => case 0x93 => case 0x94 => case 0x95 => case 0x96 => case 0x97 => case 0x98 => case 0x99 => case 0x9a => case 0x9b => case 0x9c => case 0x9d => case 0x9e =>
      case _ =>
    }
  }

  lemma ExpLogFrom160(a: bv8)
    requires 0xa0 <= a < 0xb0
    ensures Log(a) < 256 && Exp(Log(a)) == a
  {
    match a {
      case 0xa0 => case 0xa1 => case 0xa2 => case 0xa3 => case 0xa4 => case 0xa5 => case 0xa6 => case 0xa7 => case 0xa8 => case 0xa9 => case 0xaa => case 0xab => case 0xac => case 0xad => case 0xae =>
      case _ =>
    }
  }

  lemma ExpLogFrom176(a: bv8)
    requires 0xb0 <= a < 0xc0
    ensures Log(a) < 256 && Exp(Log(a)) == a
  {
    match a {
      case 0xb0 => case 0xb1 => case 0xb2 => case 0xb3 => case 0xb4 => case 0xb5 => case 0xb6 => case 0xb7 => case 0xb8 => case 0xb9 => case 0xba => case 0xbb => case 0xbc => case 0xbd => case 0xbe =>
      case _ =>
    }
  }

  lemma ExpLogFrom192(a: bv8)
    requires 0xc0 <= a < 0xd0
    ensures Log(a) < 256 && Exp(Log(a)) == a
  {
    match a {
      case 0xc0 => case 0xc1 => case 0xc2 => case 0xc3 => case 0xc4 => case 0xc5 => case 0xc6 => case 0xc7 => case 0xc8 => case 0xc9 => case 0xca => case 0xcb => case 0xcc => case 0xcd => case 0xce =>
      case _ =>
    }
  }

  lemma ExpLogFrom208(a: bv8)
    requires 0xd0 <= a < 0xe0
    ensures Log(a) < 256 && Exp(Log(a)) == a
  {
    match a {
      case 0xd0 => case 0xd1 => case 0xd2 => case 0xd3 => case 0xd4 => case 0xd5 => case 0xd6 => case 0xd7 => case 0xd8 => case 0xd9 => case 0xda => case 0xdb => case 0xdc => case 0xdd => case 0xde =>
      case _ =>
    }
  }

  lemma ExpLogFrom224(a: bv8)
    requires 0xe0 <= a < 0xf0
    ensures Log(a) < 256 && Exp(Log(a)) == a
  {
    match a {
      case 0xe0 => case 0xe1 => case 0xe2 => case 0xe3 => case 0xe4 => case 0xe5 => case 0xe6 => case 0xe7 => case 0xe8 => case 0xe9 => case 0xea => case 0xeb => case 0xec => case 0xed => case 0xee =>
      case _ =>
    }
  }

  lemma ExpLogFrom240(a: bv8)
    requires 0xf0 <= a
    ensures Log(a) < 256 && Exp(Log(a)) == a
  {
    match a {
      case 0xf0 => case 0xf1 => case 0xf2 => case 0xf3 => case 0xf4 => case 0xf5 => case 0xf6 => case 0xf7 => case 0xf8 => case 0xf9 => case 0xfa => case 0xfb => case 0xfc => case 0xfd => case 0xfe =>
      case _ =>
    }
  }

  /** GF256_EXP undoes GF256_LOG at every nonzero byte. */
  lemma ExpLog(a: bv8)
    requires a != 0
    ensures Log(a) < 256 && Exp(Log(a)) == a
  {
    if a < 0x10 { ExpLogFrom1(a); } else if a < 0x20 { ExpLogFrom16(a); } else
    if a < 0x30 { ExpLogFrom32(a); } else if a < 0x40 { ExpLogFrom48(a); } else
    if a < 0x50 { ExpLogFrom64(a); } else if a < 0x60 { ExpLogFrom80(a); } else
    if a < 0x70 { ExpLogFrom96(a); } else if a < 0x80 { ExpLogFrom112(a); } else
    if a < 0x90 { ExpLogFrom128(a); } else if a < 0xa0 { ExpLogFrom144(a); } else
    if a < 0xb0 { ExpLogFrom160(a); } else if a < 0xc0 { ExpLogFrom176(a); } else
    if a < 0xd0 { ExpLogFrom192(a); } else if a < 0xe0 { ExpLogFrom208(a); } else
    if a < 0xf0 { ExpLogFrom224(a); } else { ExpLogFrom240(a); }
  }
}
