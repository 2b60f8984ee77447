/**
 The code table itself (src/codec/huffman.cpp; Appendix B of RFC 7541), and the
 proof that it is a valid one.

 The 30-bit numbers that start with a given code form an interval.  In the order
 of `Order` the intervals of the 257 symbols follow one another without gap or
 overlap, so no code is a prefix of another.
 */
module HuffTable {
  import opened BitStrings
  import opened Huffman
  import opened Sums

  // --------------------------------------------------------------------------
  // The codes, sixteen symbols at a time
  // --------------------------------------------------------------------------

  function Codes0(s: nat): Entry {
    match s
    case 0 => Entry(0x1ff8, 13) case 1 => Entry(0x7fffd8, 23) case 2 => Entry(0xfffffe2, 28) case 3 => Entry(0xfffffe3, 28)
    case 4 => Entry(0xfffffe4, 28) case 5 => Entry(0xfffffe5, 28) case 6 => Entry(0xfffffe6, 28) case 7 => Entry(0xfffffe7, 28)
    case 8 => Entry(0xfffffe8, 28) case 9 => Entry(0xffffea, 24) case 10 => Entry(0x3ffffffc, 30) case 11 => Entry(0xfffffe9, 28)
    case 12 => Entry(0xfffffea, 28) case 13 => Entry(0x3ffffffd, 30) case 14 => Entry(0xfffffeb, 28) case _ => Entry(0xfffffec, 28)
  }

  function Codes1(s: nat): Entry {
    match s
    case 16 => Entry(0xfffffed, 28) case 17 => Entry(0xfffffee, 28) case 18 => Entry(0xfffffef, 28) case 19 => Entry(0xffffff0, 28)
    case 20 => Entry(0xffffff1, 28) case 21 => Entry(0xffffff2, 28) case 22 => Entry(0x3ffffffe, 30) case 23 => Entry(0xffffff3, 28)
    case 24 => Entry(0xffffff4, 28) case 25 => Entry(0xffffff5, 28) case 26 => Entry(0xffffff6, 28) case 27 => Entry(0xffffff7, 28)
    case 28 => Entry(0xffffff8, 28) case 29 => Entry(0xffffff9, 28) case 30 => Entry(0xffffffa, 28) case _ => Entry(0xffffffb, 28)
  }

  function Codes2(s: nat): Entry {
    match s
    case 32 => Entry(0x14, 6) case 33 => Entry(0x3f8, 10) case 34 => Entry(0x3f9, 10) case 35 => Entry(0xffa, 12)
    case 36 => Entry(0x1ff9, 13) case 37 => Entry(0x15, 6) case 38 => Entry(0xf8, 8) case 39 => Entry(0x7fa, 11)
    case 40 => Entry(0x3fa, 10) case 41 => Entry(0x3fb, 10) case 42 => Entry(0xf9, 8) case 43 => Entry(0x7fb, 11)
    case 44 => Entry(0xfa, 8) case 45 => Entry(0x16, 6) case 46 => Entry(0x17, 6) case _ => Entry(0x18, 6)
  }

  function Codes3(s: nat): Entry {
    match s
    case 48 => Entry(0x0, 5) case 49 => Entry(0x1, 5) case 50 => Entry(0x2, 5) case 51 => Entry(0x19, 6)
    case 52 => Entry(0x1a, 6) case 53 => Entry(0x1b, 6) case 54 => Entry(0x1c, 6) case 55 => Entry(0x1d, 6)
    case 56 => Entry(0x1e, 6) case 57 => Entry(0x1f, 6) case 58 => Entry(0x5c, 7) case 59 => Entry(0xfb, 8)
    case 60 => Entry(0x7ffc, 15) case 61 => Entry(0x20, 6) case 62 => Entry(0xffb, 12) case _ => Entry(0x3fc, 10)
  }

  function Codes4(s: nat): Entry {
    match s
    case 64 => Entry(0x1ffa, 13) case 65 => Entry(0x21, 6) case 66 => Entry(0x5d, 7) case 67 => Entry(0x5e, 7)
    case 68 => Entry(0x5f, 7) case 69 => Entry(0x60, 7) case 70 => Entry(0x61, 7) case 71 => Entry(0x62, 7)
    case 72 => Entry(0x63, 7) case 73 => Entry(0x64, 7) case 74 => Entry(0x65, 7) case 75 => Entry(0x66, 7)
    case 76 => Entry(0x67, 7) case 77 => Entry(0x68, 7) case 78 => Entry(0x69, 7) case _ => Entry(0x6a, 7)
  }

  function Codes5(s: nat): Entry {
    match s
    case 80 => Entry(0x6b, 7) case 81 => Entry(0x6c, 7) case 82 => Entry(0x6d, 7) case 83 => Entry(0x6e, 7)
    case 84 => Entry(0x6f, 7) case 85 => Entry(0x70, 7) case 86 => Entry(0x71, 7) case 87 => Entry(0x72, 7)
    case 88 => Entry(0xfc, 8) case 89 => Entry(0x73, 7) case 90 => Entry(0xfd, 8) case 91 => Entry(0x1ffb, 13)
    case 92 => Entry(0x7fff0, 19) case 93 => Entry(0x1ffc, 13) case 94 => Entry(0x3ffc, 14) case _ => Entry(0x22, 6)
  }

  function Codes6(s: nat): Entry {
    match s
    case 96 => Entry(0x7ffd, 15) case 97 => Entry(0x3, 5) case 98 => Entry(0x23, 6) case 99 => Entry(0x4, 5)
    case 100 => Entry(0x24, 6) case 101 => Entry(0x5, 5) case 102 => Entry(0x25, 6) case 103 => Entry(0x26, 6)
    case 104 => Entry(0x27, 6) case 105 => Entry(0x6, 5) case 106 => Entry(0x74, 7) case 107 => Entry(0x75, 7)
    case 108 => Entry(0x28, 6) case 109 => Entry(0x29, 6) case 110 => Entry(0x2a, 6) case _ => Entry(0x7, 5)
  }

  function Codes7(s: nat): Entry {
    match s
    case 112 => Entry(0x2b, 6) case 113 => Entry(0x76, 7) case 114 => Entry(0x2c, 6) case 115 => Entry(0x8, 5)
    case 116 => Entry(0x9, 5) case 117 => Entry(0x2d, 6) case 118 => Entry(0x77, 7) case 119 => Entry(0x78, 7)
    case 120 => Entry(0x79, 7) case 121 => Entry(0x7a, 7) case 122 => Entry(0x7b, 7) case 123 => Entry(0x7ffe, 15)
    case 124 => Entry(0x7fc, 11) case 125 => Entry(0x3ffd, 14) case 126 => Entry(0x1ffd, 13) case _ => Entry(0xffffffc, 28)
  }

  function Codes8(s: nat): Entry {
    match s
    case 128 => Entry(0xfffe6, 20) case 129 => Entry(0x3fffd2, 22) case 130 => Entry(0xfffe7, 20) case 131 => Entry(0xfffe8, 20)
    case 132 => Entry(0x3fffd3, 22) case 133 => Entry(0x3fffd4, 22) case 134 => Entry(0x3fffd5, 22) case 135 => Entry(0x7fffd9, 23)
    case 136 => Entry(0x3fffd6, 22) case 137 => Entry(0x7fffda, 23) case 138 => Entry(0x7fffdb, 23) case 139 => Entry(0x7fffdc, 23)
    case 140 => Entry(0x7fffdd, 23) case 141 => Entry(0x7fffde, 23) case 142 => Entry(0xffffeb, 24) case _ => Entry(0x7fffdf, 23)
  }

  function Codes9(s: nat): Entry {
    match s
    case 144 => Entry(0xffffec, 24) case 145 => Entry(0xffffed, 24) case 146 => Entry(0x3fffd7, 22) case 147 => Entry(0x7fffe0, 23)
    case 148 => Entry(0xffffee, 24) case 149 => Entry(0x7fffe1, 23) case 150 => Entry(0x7fffe2, 23) case 151 => Entry(0x7fffe3, 23)
    case 152 => Entry(0x7fffe4, 23) case 153 => Entry(0x1fffdc, 21) case 154 => Entry(0x3fffd8, 22) case 155 => Entry(0x7fffe5, 23)
    case 156 => Entry(0x3fffd9, 22) case 157 => Entry(0x7fffe6, 23) case 158 => Entry(0x7fffe7, 23) case _ => Entry(0xffffef, 24)
  }

  function Codes10(s: nat): Entry {
    match s
    case 160 => Entry(0x3fffda, 22) case 161 => Entry(0x1fffdd, 21) case 162 => Entry(0xfffe9, 20) case 163 => Entry(0x3fffdb, 22)
    case 164 => Entry(0x3fffdc, 22) case 165 => Entry(0x7fffe8, 23) case 166 => Entry(0x7fffe9, 23) case 167 => Entry(0x1fffde, 21)
    case 168 => Entry(0x7fffea, 23) case 169 => Entry(0x3fffdd, 22) case 170 => Entry(0x3fffde, 22) case 171 => Entry(0xfffff0, 24)
    case 172 => Entry(0x1fffdf, 21) case 173 => Entry(0x3fffdf, 22) case 174 => Entry(0x7fffeb, 23) case _ => Entry(0x7fffec, 23)
  }

  function Codes11(s: nat): Entry {
    match s
    case 176 => Entry(0x1fffe0, 21) case 177 => Entry(0x1fffe1, 21) case 178 => Entry(0x3fffe0, 22) case 179 => Entry(0x1fffe2, 21)
    case 180 => Entry(0x7fffed, 23) case 181 => Entry(0x3fffe1, 22) case 182 => Entry(0x7fffee, 23) case 183 => Entry(0x7fffef, 23)
    case 184 => Entry(0xfffea, 20) case 185 => Entry(0x3fffe2, 22) case 186 => Entry(0x3fffe3, 22) case 187 => Entry(0x3fffe4, 22)
    case 188 => Entry(0x7ffff0, 23) case 189 => Entry(0x3fffe5, 22) case 190 => Entry(0x3fffe6, 22) case _ => Entry(0x7ffff1, 23)
  }

  function Codes12(s: nat): Entry {
    match s
    case 192 => Entry(0x3ffffe0, 26) case 193 => Entry(0x3ffffe1, 26) case 194 => Entry(0xfffeb, 20) case 195 => Entry(0x7fff1, 19)
    case 196 => Entry(0x3fffe7, 22) case 197 => Entry(0x7ffff2, 23) case 198 => Entry(0x3fffe8, 22) case 199 => Entry(0x1ffffec, 25)
    case 200 => Entry(0x3ffffe2, 26) case 201 => Entry(0x3ffffe3, 26) case 202 => Entry(0x3ffffe4, 26) case 203 => Entry(0x7ffffde, 27)
    case 204 => Entry(0x7ffffdf, 27) case 205 => Entry(0x3ffffe5, 26) case 206 => Entry(0xfffff1, 24) case _ => Entry(0x1ffffed, 25)
  }

  function Codes13(s: nat): Entry {
    match s
    case 208 => Entry(0x7fff2, 19) case 209 => Entry(0x1fffe3, 21) case 210 => Entry(0x3ffffe6, 26) case 211 => Entry(0x7ffffe0, 27)
    case 212 => Entry(0x7ffffe1, 27) case 213 => Entry(0x3ffffe7, 26) case 214 => Entry(0x7ffffe2, 27) case 215 => Entry(0xfffff2, 24)
    case 216 => Entry(0x1fffe4, 21) case 217 => Entry(0x1fffe5, 21) case 218 => Entry(0x3ffffe8, 26) case 219 => Entry(0x3ffffe9, 26)
    case 220 => Entry(0xffffffd, 28) case 221 => Entry(0x7ffffe3, 27) case 222 => Entry(0x7ffffe4, 27) case _ => Entry(0x7ffffe5, 27)
  }

  function Codes14(s: nat): Entry {
    match s
    case 224 => Entry(0xfffec, 20) case 225 => Entry(0xfffff3, 24) case 226 => Entry(0xfffed, 20) case 227 => Entry(0x1fffe6, 21)
    case 228 => Entry(0x3fffe9, 22) case 229 => Entry(0x1fffe7, 21) case 230 => Entry(0x1fffe8, 21) case 231 => Entry(0x7ffff3, 23)
    case 232 => Entry(0x3fffea, 22) case 233 => Entry(0x3fffeb, 22) case 234 => Entry(0x1ffffee, 25) case 235 => Entry(0x1ffffef, 25)
    case 236 => Entry(0xfffff4, 24) case 237 => Entry(0xfffff5, 24) case 238 => Entry(0x3ffffea, 26) case _ => Entry(0x7ffff4, 23)
  }

  function Codes15(s: nat): Entry {
    match s
    case 240 => Entry(0x3ffffeb, 26) case 241 => Entry(0x7ffffe6, 27) case 242 => Entry(0x3ffffec, 26) case 243 => Entry(0x3ffffed, 26)
    case 244 => Entry(0x7ffffe7, 27) case 245 => Entry(0x7ffffe8, 27) case 246 => Entry(0x7ffffe9, 27) case 247 => Entry(0x7ffffea, 27)
    case 248 => Entry(0x7ffffeb, 27) case 249 => Entry(0xffffffe, 28) case 250 => Entry(0x7ffffec, 27) case 251 => Entry(0x7ffffed, 27)
    case 252 => Entry(0x7ffffee, 27) case 253 => Entry(0x7ffffef, 27) case 254 => Entry(0x7fffff0, 27) case _ => Entry(0x3ffffee, 26)
  }

  function EntryOf(s: nat): Entry {
    if s < 16 then Codes0(s)
    else if s < 32 then Codes1(s)
    else if s < 48 then Codes2(s)
    else if s < 64 then Codes3(s)
    else if s < 80 then Codes4(s)
    else if s < 96 then Codes5(s)
    else if s < 112 then Codes6(s)
    else if s < 128 then Codes7(s)
    else if s < 144 then Codes8(s)
    else if s < 160 then Codes9(s)
    else if s < 176 then Codes10(s)
    else if s < 192 then Codes11(s)
    else if s < 208 then Codes12(s)
    else if s < 224 then Codes13(s)
    else if s < 240 then Codes14(s)
    else if s < 256 then Codes15(s)
    else Entry(0x3fffffff, 30)
  }

  // --------------------------------------------------------------------------
  // The symbols in the order of their codes
  // --------------------------------------------------------------------------

  function Order0(s: nat): nat {
    match s
    case 0 => 48 case 1 => 49 case 2 => 50 case 3 => 97
    case 4 => 99 case 5 => 101 case 6 => 105 case 7 => 111
    case 8 => 115 case 9 => 116 case 10 => 32 case 11 => 37
    case 12 => 45 case 13 => 46 case 14 => 47 case _ => 51
  }

  function Order1(s: nat): nat {
    match s
    case 16 => 52 case 17 => 53 case 18 => 54 case 19 => 55
    case 20 => 56 case 21 => 57 case 22 => 61 case 23 => 65
    case 24 => 95 case 25 => 98 case 26 => 100 case 27 => 102
    case 28 => 103 case 29 => 104 case 30 => 108 case _ => 109
  }

  function Order2(s: nat): nat {
    match s
    case 32 => 110 case 33 => 112 case 34 => 114 case 35 => 117
    case 36 => 58 case 37 => 66 case 38 => 67 case 39 => 68
    case 40 => 69 case 41 => 70 case 42 => 71 case 43 => 72
    case 44 => 73 case 45 => 74 case 46 => 75 case _ => 76
  }

  function Order3(s: nat): nat {
    match s
    case 48 => 77 case 49 => 78 case 50 => 79 case 51 => 80
    case 52 => 81 case 53 => 82 case 54 => 83 case 55 => 84
    case 56 => 85 case 57 => 86 case 58 => 87 case 59 => 89
    case 60 => 106 case 61 => 107 case 62 => 113 case _ => 118
  }

  function Order4(s: nat): nat {
    match s
    case 64 => 119 case 65 => 120 case 66 => 121 case 67 => 122
    case 68 => 38 case 69 => 42 case 70 => 44 case 71 => 59
    case 72 => 88 case 73 => 90 case 74 => 33 case 75 => 34
    case 76 => 40 case 77 => 41 case 78 => 63 case _ => 39
  }

  function Order5(s: nat): nat {
    match s
    case 80 => 43 case 81 => 124 case 82 => 35 case 83 => 62
    case 84 => 0 case 85 => 36 case 86 => 64 case 87 => 91
    case 88 => 93 case 89 => 126 case 90 => 94 case 91 => 125
    case 92 => 60 case 93 => 96 case 94 => 123 case _ => 92
  }

  function Order6(s: nat): nat {
    match s
    case 96 => 195 case 97 => 208 case 98 => 128 case 99 => 130
    case 100 => 131 case 101 => 162 case 102 => 184 case 103 => 194
    case 104 => 224 case 105 => 226 case 106 => 153 case 107 => 161
    case 108 => 167 case 109 => 172 case 110 => 176 case _ => 177
  }

  function Order7(s: nat): nat {
    match s
    case 112 => 179 case 113 => 209 case 114 => 216 case 115 => 217
    case 116 => 227 case 117 => 229 case 118 => 230 case 119 => 129
    case 120 => 132 case 121 => 133 case 122 => 134 case 123 => 136
    case 124 => 146 case 125 => 154 case 126 => 156 case _ => 160
  }

  function Order8(s: nat): nat {
    match s
    case 128 => 163 case 129 => 164 case 130 => 169 case 131 => 170
    case 132 => 173 case 133 => 178 case 134 => 181 case 135 => 185
    case 136 => 186 case 137 => 187 case 138 => 189 case 139 => 190
    case 140 => 196 case 141 => 198 case 142 => 228 case _ => 232
  }

  function Order9(s: nat): nat {
    match s
    case 144 => 233 case 145 => 1 case 146 => 135 case 147 => 137
    case 148 => 138 case 149 => 139 case 150 => 140 case 151 => 141
    case 152 => 143 case 153 => 147 case 154 => 149 case 155 => 150
    case 156 => 151 case 157 => 152 case 158 => 155 case _ => 157
  }

  function Order10(s: nat): nat {
    match s
    case 160 => 158 case 161 => 165 case 162 => 166 case 163 => 168
    case 164 => 174 case 165 => 175 case 166 => 180 case 167 => 182
    case 168 => 183 case 169 => 188 case 170 => 191 case 171 => 197
    case 172 => 231 case 173 => 239 case 174 => 9 case _ => 142
  }

  function Order11(s: nat): nat {
    match s
    case 176 => 144 case 177 => 145 case 178 => 148 case 179 => 159
    case 180 => 171 case 181 => 206 case 182 => 215 case 183 => 225
    case 184 => 236 case 185 => 237 case 186 => 199 case 187 => 207
    case 188 => 234 case 189 => 235 case 190 => 192 case _ => 193
  }

  function Order12(s: nat): nat {
    match s
    case 192 => 200 case 193 => 201 case 194 => 202 case 195 => 205
    case 196 => 210 case 197 => 213 case 198 => 218 case 199 => 219
    case 200 => 238 case 201 => 240 case 202 => 242 case 203 => 243
    case 204 => 255 case 205 => 203 case 206 => 204 case _ => 211
  }

  function Order13(s: nat): nat {
    match s
    case 208 => 212 case 209 => 214 case 210 => 221 case 211 => 222
    case 212 => 223 case 213 => 241 case 214 => 244 case 215 => 245
    case 216 => 246 case 217 => 247 case 218 => 248 case 219 => 250
    case 220 => 251 case 221 => 252 case 222 => 253 case _ => 254
  }

  function Order14(s: nat): nat {
    match s
    case 224 => 2 case 225 => 3 case 226 => 4 case 227 => 5
    case 228 => 6 case 229 => 7 case 230 => 8 case 231 => 11
    case 232 => 12 case 233 => 14 case 234 => 15 case 235 => 16
    case 236 => 17 case 237 => 18 case 238 => 19 case _ => 20
  }

  function Order15(s: nat): nat {
    match s
    case 240 => 21 case 241 => 23 case 242 => 24 case 243 => 25
    case 244 => 26 case 245 => 27 case 246 => 28 case 247 => 29
    case 248 => 30 case 249 => 31 case 250 => 127 case 251 => 220
    case 252 => 249 case 253 => 10 case 254 => 13 case _ => 22
  }

  function Order(s: nat): nat {
    if s < 16 then Order0(s)
    else if s < 32 then Order1(s)
    else if s < 48 then Order2(s)
    else if s < 64 then Order3(s)
    else if s < 80 then Order4(s)
    else if s < 96 then Order5(s)
    else if s < 112 then Order6(s)
    else if s < 128 then Order7(s)
    else if s < 144 then Order8(s)
    else if s < 160 then Order9(s)
    else if s < 176 then Order10(s)
    else if s < 192 then Order11(s)
    else if s < 208 then Order12(s)
    else if s < 224 then Order13(s)
    else if s < 240 then Order14(s)
    else if s < 256 then Order15(s)
    else 256
  }

  /** How many 30-bit numbers start with a code of b bits, for the lengths in use. */
  function Width(b: nat): nat {
    match b
    case 5 => 0x2000000 case 6 => 0x1000000 case 7 => 0x800000 case 8 => 0x400000 case 10 => 0x100000 case 11 => 0x80000
    case 12 => 0x40000 case 13 => 0x20000 case 14 => 0x10000 case 15 => 0x8000 case 19 => 0x800 case 20 => 0x400
    case 21 => 0x200 case 22 => 0x100 case 23 => 0x80 case 24 => 0x40 case 25 => 0x20 case 26 => 0x10
    case 27 => 0x8 case 28 => 0x4 case 30 => 0x1
    case _ => 0
  }

  function Lo(e: Entry): nat { e.code * Width(e.bits) }

  function Hi(e: Entry): nat { (e.code + 1) * Width(e.bits) }

  /** Symbol number i of the order is followed by the one whose interval starts where its own ends. */
  predicate Step(i: nat) {
    && Order(i) <= 256 && Width(EntryOf(Order(i)).bits) > 0
    && Hi(EntryOf(Order(i))) == Lo(EntryOf(Order(i + 1)))
  }

  // Checked four at a time.
  lemma Ground0() ensures Step(0) && Step(1) && Step(2) && Step(3) {}
  lemma Ground1() ensures Step(4) && Step(5) && Step(6) && Step(7) {}
  lemma Ground2() ensures Step(8) && Step(9) && Step(10) && Step(11) {}
  lemma Ground3() ensures Step(12) && Step(13) && Step(14) && Step(15) {}
  lemma Ground4() ensures Step(16) && Step(17) && Step(18) && Step(19) {}
  lemma Ground5() ensures Step(20) && Step(21) && Step(22) && Step(23) {}
  lemma Ground6() ensures Step(24) && Step(25) && Step(26) && Step(27) {}
  lemma Ground7() ensures Step(28) && Step(29) && Step(30) && Step(31) {}
  lemma Ground8() ensures Step(32) && Step(33) && Step(34) && Step(35) {}
  lemma Ground9() ensures Step(36) && Step(37) && Step(38) && Step(39) {}
  lemma Ground10() ensures Step(40) && Step(41) && Step(42) && Step(43) {}
  lemma Ground11() ensures Step(44) && Step(45) && Step(46) && Step(47) {}
  lemma Ground12() ensures Step(48) && Step(49) && Step(50) && Step(51) {}
  lemma Ground13() ensures Step(52) && Step(53) && Step(54) && Step(55) {}
  lemma Ground14() ensures Step(56) && Step(57) && Step(58) && Step(59) {}
  lemma Ground15() ensures Step(60) && Step(61) && Step(62) && Step(63) {}
  lemma Ground16() ensures Step(64) && Step(65) && Step(66) && Step(67) {}
  lemma Ground17() ensures Step(68) && Step(69) && Step(70) && Step(71) {}
  lemma Ground18() ensures Step(72) && Step(73) && Step(74) && Step(75) {}
  lemma Ground19() ensures Step(76) && Step(77) && Step(78) && Step(79) {}
  lemma Ground20() ensures Step(80) && Step(81) && Step(82) && Step(83) {}
  lemma Ground21() ensures Step(84) && Step(85) && Step(86) && Step(87) {}
  lemma Ground22() ensures Step(88) && Step(89) && Step(90) && Step(91) {}
  lemma Ground23() ensures Step(92) && Step(93) && Step(94) && Step(95) {}
  lemma Ground24() ensures Step(96) && Step(97) && Step(98) && Step(99) {}
  lemma Ground25() ensures Step(100) && Step(101) && Step(102) && Step(103) {}
  lemma Ground26() ensures Step(104) && Step(105) && Step(106) && Step(107) {}
  lemma Ground27() ensures Step(108) && Step(109) && Step(110) && Step(111) {}
  lemma Ground28() ensures Step(112) && Step(113) && Step(114) && Step(115) {}
  lemma Ground29() ensures Step(116) && Step(117) && Step(118) && Step(119) {}
  lemma Ground30() ensures Step(120) && Step(121) && Step(122) && Step(123) {}
  lemma Ground31() ensures Step(124) && Step(125) && Step(126) && Step(127) {}
  lemma Ground32() ensures Step(128) && Step(129) && Step(130) && Step(131) {}
  lemma Ground33() ensures Step(132) && Step(133) && Step(134) && Step(135) {}
  lemma Ground34() ensures Step(136) && Step(137) && Step(138) && Step(139) {}
  lemma Ground35() ensures Step(140) && Step(141) && Step(142) && Step(143) {}
  lemma Ground36() ensures Step(144) && Step(145) && Step(146) && Step(147) {}
  lemma Ground37() ensures Step(148) && Step(149) && Step(150) && Step(151) {}
  lemma Ground38() ensures Step(152) && Step(153) && Step(154) && Step(155) {}
  lemma Ground39() ensures Step(156) && Step(157) && Step(158) && Step(159) {}
  lemma Ground40() ensures Step(160) && Step(161) && Step(162) && Step(163) {}
  lemma Ground41() ensures Step(164) && Step(165) && Step(166) && Step(167) {}
  lemma Ground42() ensures Step(168) && Step(169) && Step(170) && Step(171) {}
  lemma Ground43() ensures Step(172) && Step(173) && Step(174) && Step(175) {}
  lemma Ground44() ensures Step(176) && Step(177) && Step(178) && Step(179) {}
  lemma Ground45() ensures Step(180) && Step(181) && Step(182) && Step(183) {}
  lemma Ground46() ensures Step(184) && Step(185) && Step(186) && Step(187) {}
  lemma Ground47() ensures Step(188) && Step(189) && Step(190) && Step(191) {}
  lemma Ground48() ensures Step(192) && Step(193) && Step(194) && Step(195) {}
  lemma Ground49() ensures Step(196) && Step(197) && Step(198) && Step(199) {}
  lemma Ground50() ensures Step(200) && Step(201) && Step(202) && Step(203) {}
  lemma Ground51() ensures Step(204) && Step(205) && Step(206) && Step(207) {}
  lemma Ground52() ensures Step(208) && Step(209) && Step(210) && Step(211) {}
  lemma Ground53() ensures Step(212) && Step(213) && Step(214) && Step(215) {}
  lemma Ground54() ensures Step(216) && Step(217) && Step(218) && Step(219) {}
  lemma Ground55() ensures Step(220) && Step(221) && Step(222) && Step(223) {}
  lemma Ground56() ensures Step(224) && Step(225) && Step(226) && Step(227) {}
  lemma Ground57() ensures Step(228) && Step(229) && Step(230) && Step(231) {}
  lemma Ground58() ensures Step(232) && Step(233) && Step(234) && Step(235) {}
  lemma Ground59() ensures Step(236) && Step(237) && Step(238) && Step(239) {}
  lemma Ground60() ensures Step(240) && Step(241) && Step(242) && Step(243) {}
  lemma Ground61() ensures Step(244) && Step(245) && Step(246) && Step(247) {}
  lemma Ground62() ensures Step(248) && Step(249) && Step(250) && Step(251) {}
  lemma Ground63() ensures Step(252) && Step(253) && Step(254) && Step(255) {}

  lemma Steps0(i: nat)
    requires 0 <= i < 16
    ensures Step(i)
  {
    hide *;
    Ground0(); Ground1(); Ground2(); Ground3();
  }

  lemma Steps1(i: nat)
    requires 16 <= i < 32
    ensures Step(i)
  {
    hide *;
    Ground4(); Ground5(); Ground6(); Ground7();
  }

  lemma Steps2(i: nat)
    requires 32 <= i < 48
    ensures Step(i)
  {
    hide *;
    Ground8(); Ground9(); Ground10(); Ground11();
  }

  lemma Steps3(i: nat)
    requires 48 <= i < 64
    ensures Step(i)
  {
    hide *;
    Ground12(); Ground13(); Ground14(); Ground15();
  }

  lemma Steps4(i: nat)
    requires 64 <= i < 80
    ensures Step(i)
  {
    hide *;
    Ground16(); Ground17(); Ground18(); Ground19();
  }

  lemma Steps5(i: nat)
    requires 80 <= i < 96
    ensures Step(i)
  {
    hide *;
    Ground20(); Ground21(); Ground22(); Ground23();
  }

  lemma Steps6(i: nat)
    requires 96 <= i < 112
    ensures Step(i)
  {
    hide *;
    Ground24(); Ground25(); Ground26(); Ground27();
  }

  lemma Steps7(i: nat)
    requires 112 <= i < 128
    ensures Step(i)
  {
    hide *;
    Ground28(); Ground29(); Ground30(); Ground31();
  }

  lemma Steps8(i: nat)
    requires 128 <= i < 144
    ensures Step(i)
  {
    hide *;
    Ground32(); Ground33(); Ground34(); Ground35();
  }

  lemma Steps9(i: nat)
    requires 144 <= i < 160
    ensures Step(i)
  {
    hide *;
    Ground36(); Ground37(); Ground38(); Ground39();
  }

  lemma Steps10(i: nat)
    requires 160 <= i < 176
    ensures Step(i)
  {
    hide *;
    Ground40(); Ground41(); Ground42(); Ground43();
  }

  lemma Steps11(i: nat)
    requires 176 <= i < 192
    ensures Step(i)
  {
    hide *;
    Ground44(); Ground45(); Ground46(); Ground47();
  }

  lemma Steps12(i: nat)
    requires 192 <= i < 208
    ensures Step(i)
  {
    hide *;
    Ground48(); Ground49(); Ground50(); Ground51();
  }

  lemma Steps13(i: nat)
    requires 208 <= i < 224
    ensures Step(i)
  {
    hide *;
    Ground52(); Ground53(); Ground54(); Ground55();
  }

  lemma Steps14(i: nat)
    requires 224 <= i < 240
    ensures Step(i)
  {
    hide *;
    Ground56(); Ground57(); Ground58(); Ground59();
  }

  lemma Steps15(i: nat)
    requires 240 <= i < 256
    ensures Step(i)
  {
    hide *;
    Ground60(); Ground61(); Ground62(); Ground63();
  }

  lemma StepAt(i: nat)
    requires i < 256
    ensures Step(i)
  {
    hide Step;
    if i < 16 { Steps0(i); }
    else if i < 32 { Steps1(i); }
    else if i < 48 { Steps2(i); }
    else if i < 64 { Steps3(i); }
    else if i < 80 { Steps4(i); }
    else if i < 96 { Steps5(i); }
    else if i < 112 { Steps6(i); }
    else if i < 128 { Steps7(i); }
    else if i < 144 { Steps8(i); }
    else if i < 160 { Steps9(i); }
    else if i < 176 { Steps10(i); }
    else if i < 192 { Steps11(i); }
    else if i < 208 { Steps12(i); }
    else if i < 224 { Steps13(i); }
    else if i < 240 { Steps14(i); }
    else { Steps15(i); }
  }

  // --------------------------------------------------------------------------
  // From the order of the intervals to a valid table
  // --------------------------------------------------------------------------

  function TheTable(): (t: Table)
    ensures |t| == 257 && forall s :: 0 <= s < 257 ==> t[s] == EntryOf(s)
  {
    seq(257, s requires 0 <= s < 257 => EntryOf(s))
  }

  lemma WidthIs(b: nat)
    requires Width(b) > 0
    ensures 5 <= b <= 30 && Width(b) == Pow2(30 - b)
  {
    assert Pow2(2) == 4 && Pow2(10) == 1024;
    if b <= 15 { PowAdd(15, 15 - b); PowAdd(10, 5); } else { PowAdd(7, 0); }
  }

  lemma Bounds(i: nat)
    requires i <= 256
    ensures Order(i) <= 256 && Width(EntryOf(Order(i)).bits) > 0
  {
    if i < 256 {
      hide Order, EntryOf, Width, Lo, Hi;
      StepAt(i);
    }
  }

  /** The interval of symbol number i of the order. */
  function Start(i: nat): nat { Lo(EntryOf(Order(i))) }

  function End(i: nat): nat { Hi(EntryOf(Order(i))) }

  lemma Interval(i: nat)
    requires i <= 256
    ensures Start(i) < End(i) && (i < 256 ==> End(i) == Start(i + 1))
  {
    hide Order, EntryOf, Width;
    Bounds(i);
    if i < 256 { StepAt(i); }
    var e := EntryOf(Order(i));
    assert (e.code + 1) * Width(e.bits) == e.code * Width(e.bits) + Width(e.bits);
  }

  /** An earlier symbol's interval ends before a later one's begins. */
  lemma {:induction false} Before(i: nat, j: nat)
    requires i < j <= 256
    ensures End(i) <= Start(j)
    decreases j
  {
    hide *;
    Interval(j - 1);
    if i < j - 1 { Before(i, j - 1); }
  }

  lemma Distinct(i: nat, j: nat)
    requires i < j <= 256
    ensures Order(i) != Order(j)
  {
    hide Order, EntryOf, Lo, Hi;
    Before(i, j);
    Interval(i);
  }

  /** The symbols at positions below n. */
  ghost function Symbols(n: nat): set<nat> {
    if n == 0 then {} else Symbols(n - 1) + {Order(n - 1)}
  }

  lemma {:induction false} SymbolsHas(n: nat, s: nat)
    ensures s in Symbols(n) <==> exists i :: 0 <= i < n && Order(i) == s
  {
    hide Order;
    if n > 0 { SymbolsHas(n - 1, s); }
  }

  lemma {:induction false} SymbolsCount(n: nat)
    requires n <= 257
    ensures |Symbols(n)| == n && forall s :: s in Symbols(n) ==> s < 257
  {
    hide Order;
    if n > 0 {
      SymbolsCount(n - 1);
      SymbolsHas(n - 1, Order(n - 1));
      forall i | 0 <= i < n - 1 ensures Order(i) != Order(n - 1) { Distinct(i, n - 1); }
      Bounds(n - 1);
    }
  }

  lemma {:induction false} Full(a: set<nat>, n: nat)
    requires |a| == n && forall s :: s in a ==> s < n
    ensures forall s: nat :: s < n ==> s in a
    decreases n
  {
    if n > 0 {
      if n - 1 !in a { CountBelow(a, n - 1); }
      Full(a - {n - 1}, n - 1);
      forall s: nat | s < n ensures s in a {
        if s < n - 1 { assert s in a - {n - 1}; }
      }
    }
  }

  /** Every symbol has a place in the order. */
  lemma Placed(s: nat) returns (i: nat)
    requires s <= 256
    ensures i <= 256 && Order(i) == s
  {
    hide Order;
    SymbolsCount(257);
    Full(Symbols(257), 257);
    SymbolsHas(257, s);
    i :| 0 <= i < 257 && Order(i) == s;
  }

  lemma CodeBounds(s: nat)
    requires s <= 256
    ensures var e := EntryOf(s); 5 <= e.bits <= 30 && e.code < Pow2(e.bits) && Width(e.bits) == Pow2(30 - e.bits)
  {
    hide Order, EntryOf, Width;
    var i := Placed(s);
    Bounds(i);
    var e := EntryOf(s);
    WidthIs(e.bits);
    EndsWithin(i);
    PowAdd(e.bits, 30 - e.bits);
    hide Pow2;
    Cancel(e.code, Pow2(e.bits), Pow2(30 - e.bits));
  }

  lemma Cancel(c: nat, p: nat, w: nat)
    requires w > 0 && (c + 1) * w <= p * w
    ensures c < p
  {
    if c >= p { Scaled(w, p, c + 1); }
  }

  lemma EndsWithin(i: nat)
    requires i <= 256
    ensures End(i) <= Pow2(30)
  {
    hide Start, End, Pow2;
    LastEnds();
    if i < 256 { Before(i, 256); Interval(256); }
  }

  lemma LastEnds()
    ensures End(256) == 0x4000_0000 == Pow2(30)
  {
    assert Pow2(30) == 0x4000_0000 by { assert Pow2(10) == 1024; PowAdd(10, 10); PowAdd(20, 10); }
    hide Pow2;
  }

  /** A code that starts with another's bits lies in the other's interval. */
  lemma Nests(a: Entry, b: Entry)
    requires 5 <= a.bits <= 30 && a.code < Pow2(a.bits) && Width(a.bits) == Pow2(30 - a.bits)
    requires 5 <= b.bits <= 30 && b.code < Pow2(b.bits) && Width(b.bits) == Pow2(30 - b.bits)
    requires BitsOf(a.code, a.bits) <= BitsOf(b.code, b.bits)
    ensures Lo(a) <= Lo(b) && Hi(b) <= Hi(a)
  {
    hide Width, BitsOf, Value, Pow2;
    var x, y := BitsOf(a.code, a.bits), BitsOf(b.code, b.bits);
    var rest := y[|x|..];
    assert y == x + rest;
    ValueConcat(x, rest);
    ValueOfBits(a.code, a.bits);
    ValueOfBits(b.code, b.bits);
    ValueBound(rest);
    PowAdd(|rest|, 30 - b.bits);
    NestArith(a.code, b.code, Value(rest), Pow2(|rest|), Pow2(30 - b.bits));
  }

  lemma NestArith(a: nat, b: nat, v: nat, p: nat, w: nat)
    requires b == a * p + v && v < p
    ensures a * (p * w) <= b * w && (b + 1) * w <= (a + 1) * (p * w)
  {
    assert b * w == a * (p * w) + v * w;
    assert (b + 1) * w == a * (p * w) + (v + 1) * w;
    if v + 1 < p { Scaled(w, v + 1, p); }
    assert (v + 1) * w <= p * w;
  }

  /** The table of the program is a valid one. */
  lemma TableValid()
    ensures ValidTable(TheTable())
  {
    hide EntryOf, Order, Width, Pow2, BitsOf, TheTable;
    var t := TheTable();
    forall s | 0 <= s < 257 ensures 5 <= t[s].bits <= 30 && t[s].code < Pow2(t[s].bits) {
      CodeBounds(s);
    }
    forall a, b | 0 <= a < 257 && 0 <= b < 257 && Code(t, a) <= Code(t, b) ensures a == b {
      Separate(a, b);
    }
    LastEntry();
  }

  lemma LastEntry()
    ensures EntryOf(256) == Entry(0x3fff_ffff, 30) && BitsOf(0x3fff_ffff, 30) == Ones(30)
  {
    LastEnds();
    AllOnes(30);
    hide Pow2, BitsOf, Ones;
  }

  lemma Separate(a: nat, b: nat)
    requires a <= 256 && b <= 256
    requires BitsOf(EntryOf(a).code, EntryOf(a).bits) <= BitsOf(EntryOf(b).code, EntryOf(b).bits)
    ensures a == b
  {
    hide Order, EntryOf, Width, BitsOf, Lo, Hi, Pow2;
    CodeBounds(a);
    CodeBounds(b);
    Nests(EntryOf(a), EntryOf(b));
    var i := Placed(a);
    var j := Placed(b);
    Interval(i);
    Interval(j);
    if i < j { Before(i, j); } else if j < i { Before(j, i); }
  }
}
