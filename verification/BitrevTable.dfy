/** The bit-reversal table of fft_memory.c, checked entry by entry. */
module BitrevTable {
  import opened Indices

  const NO_POINTS: nat := 512

  function Bank0(q: nat): seq<nat>
    requires q < 8
  {
    match q
    case 0 => [0, 256, 128, 384, 64, 320, 192, 448]
    case 1 => [32, 288, 160, 416, 96, 352, 224, 480]
    case 2 => [16, 272, 144, 400, 80, 336, 208, 464]
    case 3 => [48, 304, 176, 432, 112, 368, 240, 496]
    case 4 => [8, 264, 136, 392, 72, 328, 200, 456]
    case 5 => [40, 296, 168, 424, 104, 360, 232, 488]
    case 6 => [24, 280, 152, 408, 88, 344, 216, 472]
    case _ => [56, 312, 184, 440, 120, 376, 248, 504]
  }

  function Bank1(q: nat): seq<nat>
    requires q < 8
  {
    match q
    case 0 => [4, 260, 132, 388, 68, 324, 196, 452]
    case 1 => [36, 292, 164, 420, 100, 356, 228, 484]
    case 2 => [20, 276, 148, 404, 84, 340, 212, 468]
    case 3 => [52, 308, 180, 436, 116, 372, 244, 500]
    case 4 => [12, 268, 140, 396, 76, 332, 204, 460]
    case 5 => [44, 300, 172, 428, 108, 364, 236, 492]
    case 6 => [28, 284, 156, 412, 92, 348, 220, 476]
    case _ => [60, 316, 188, 444, 124, 380, 252, 508]
  }

  function Bank2(q: nat): seq<nat>
    requires q < 8
  {
    match q
    case 0 => [2, 258, 130, 386, 66, 322, 194, 450]
    case 1 => [34, 290, 162, 418, 98, 354, 226, 482]
    case 2 => [18, 274, 146, 402, 82, 338, 210, 466]
    case 3 => [50, 306, 178, 434, 114, 370, 242, 498]
    case 4 => [10, 266, 138, 394, 74, 330, 202, 458]
    case 5 => [42, 298, 170, 426, 106, 362, 234, 490]
    case 6 => [26, 282, 154, 410, 90, 346, 218, 474]
    case _ => [58, 314, 186, 442, 122, 378, 250, 506]
  }

  function Bank3(q: nat): seq<nat>
    requires q < 8
  {
    match q
    case 0 => [6, 262, 134, 390, 70, 326, 198, 454]
    case 1 => [38, 294, 166, 422, 102, 358, 230, 486]
    case 2 => [22, 278, 150, 406, 86, 342, 214, 470]
    case 3 => [54, 310, 182, 438, 118, 374, 246, 502]
    case 4 => [14, 270, 142, 398, 78, 334, 206, 462]
    case 5 => [46, 302, 174, 430, 110, 366, 238, 494]
    case 6 => [30, 286, 158, 414, 94, 350, 222, 478]
    case _ => [62, 318, 190, 446, 126, 382, 254, 510]
  }

  function Bank4(q: nat): seq<nat>
    requires q < 8
  {
    match q
    case 0 => [1, 257, 129, 385, 65, 321, 193, 449]
    case 1 => [33, 289, 161, 417, 97, 353, 225, 481]
    case 2 => [17, 273, 145, 401, 81, 337, 209, 465]
    case 3 => [49, 305, 177, 433, 113, 369, 241, 497]
    case 4 => [9, 265, 137, 393, 73, 329, 201, 457]
    case 5 => [41, 297, 169, 425, 105, 361, 233, 489]
    case 6 => [25, 281, 153, 409, 89, 345, 217, 473]
    case _ => [57, 313, 185, 441, 121, 377, 249, 505]
  }

  function Bank5(q: nat): seq<nat>
    requires q < 8
  {
    match q
    case 0 => [5, 261, 133, 389, 69, 325, 197, 453]
    case 1 => [37, 293, 165, 421, 101, 357, 229, 485]
    case 2 => [21, 277, 149, 405, 85, 341, 213, 469]
    case 3 => [53, 309, 181, 437, 117, 373, 245, 501]
    case 4 => [13, 269, 141, 397, 77, 333, 205, 461]
    case 5 => [45, 301, 173, 429, 109, 365, 237, 493]
    case 6 => [29, 285, 157, 413, 93, 349, 221, 477]
    case _ => [61, 317, 189, 445, 125, 381, 253, 509]
  }

  function Bank6(q: nat): seq<nat>
    requires q < 8
  {
    match q
    case 0 => [3, 259, 131, 387, 67, 323, 195, 451]
    case 1 => [35, 291, 163, 419, 99, 355, 227, 483]
    case 2 => [19, 275, 147, 403, 83, 339, 211, 467]
    case 3 => [51, 307, 179, 435, 115, 371, 243, 499]
    case 4 => [11, 267, 139, 395, 75, 331, 203, 459]
    case 5 => [43, 299, 171, 427, 107, 363, 235, 491]
    case 6 => [27, 283, 155, 411, 91, 347, 219, 475]
    case _ => [59, 315, 187, 443, 123, 379, 251, 507]
  }

  function Bank7(q: nat): seq<nat>
    requires q < 8
  {
    match q
    case 0 => [7, 263, 135, 391, 71, 327, 199, 455]
    case 1 => [39, 295, 167, 423, 103, 359, 231, 487]
    case 2 => [23, 279, 151, 407, 87, 343, 215, 471]
    case 3 => [55, 311, 183, 439, 119, 375, 247, 503]
    case 4 => [15, 271, 143, 399, 79, 335, 207, 463]
    case 5 => [47, 303, 175, 431, 111, 367, 239, 495]
    case 6 => [31, 287, 159, 415, 95, 351, 223, 479]
    case _ => [63, 319, 191, 447, 127, 383, 255, 511]
  }

  /** Line r of the table: entries 8*r to 8*r + 7. */
  function Row(r: nat): seq<nat>
    requires r < 64
  {
    var q := r % 8;
    match r / 8
    case 0 => Bank0(q)
    case 1 => Bank1(q)
    case 2 => Bank2(q)
    case 3 => Bank3(q)
    case 4 => Bank4(q)
    case 5 => Bank5(q)
    case 6 => Bank6(q)
    case _ => Bank7(q)
  }

  /** Three bits reversed. */
  function Rev3(c: nat): nat
    requires c < 8
  {
    [0, 4, 2, 6, 1, 5, 3, 7][c]
  }

  function RowFrom(f: nat): seq<nat> {
    [f, 256 + f, 128 + f, 384 + f, 64 + f, 320 + f, 192 + f, 448 + f]
  }

  lemma RowEntries(r: nat)
    requires r < 64
    ensures Row(r) == RowFrom(8 * Rev3(r % 8) + Rev3(r / 8))
  {
    hide RowFrom, Bank0, Bank1, Bank2, Bank3, Bank4, Bank5, Bank6, Bank7;
    LowBanks(r % 8);
    HighBanks(r % 8);
  }

  lemma LowBanks(q: nat)
    requires q < 8
    ensures Bank0(q) == RowFrom(8 * Rev3(q)) && Bank1(q) == RowFrom(8 * Rev3(q) + 4)
    ensures Bank2(q) == RowFrom(8 * Rev3(q) + 2) && Bank3(q) == RowFrom(8 * Rev3(q) + 6)
  {
  }

  lemma HighBanks(q: nat)
    requires q < 8
    ensures Bank4(q) == RowFrom(8 * Rev3(q) + 1) && Bank5(q) == RowFrom(8 * Rev3(q) + 5)
    ensures Bank6(q) == RowFrom(8 * Rev3(q) + 3) && Bank7(q) == RowFrom(8 * Rev3(q) + 7)
  {
  }

  /** Entry i of the table. */
  function Bitrev(i: nat): nat
    requires i < NO_POINTS
  {
    RowEntries(i / 8);
    Row(i / 8)[i % 8]
  }

  lemma ThreeSteps(bits: nat, p: nat, b0: nat, b1: nat, b2: nat)
    requires b0 < 2 && b1 < 2 && b2 < 2
    ensures var w := Pow2(bits);
            RevBits(bits + 3, 8 * p + 4 * b2 + 2 * b1 + b0)
            == (if b0 == 0 then 0 else 4 * w) + (if b1 == 0 then 0 else 2 * w) + (if b2 == 0 then 0 else w) + RevBits(bits, p)
  {
    TwoDoublings(bits);
    hide RevBits, Pow2;
    RevBitsStep(bits + 2, 8 * p + 4 * b2 + 2 * b1 + b0, b0, 4 * p + 2 * b2 + b1);
    RevBitsStep(bits + 1, 4 * p + 2 * b2 + b1, b1, 2 * p + b2);
    RevBitsStep(bits, 2 * p + b2, b2, p);
  }

  lemma TwoDoublings(bits: nat)
    ensures Pow2(bits + 1) == 2 * Pow2(bits) && Pow2(bits + 2) == 4 * Pow2(bits)
  {
  }

  lemma ThreeBits(c: nat, w: nat)
    requires c < 8
    ensures c == 4 * (c / 4) + 2 * (c / 2 % 2) + c % 2 && c / 4 < 2
    ensures (if c % 2 == 0 then 0 else 4 * w) + (if c / 2 % 2 == 0 then 0 else 2 * w) + (if c / 4 == 0 then 0 else w)
            == Rev3(c) * w
  {
  }

  lemma RevBitsThreeMore(bits: nat, i: nat, c: nat, p: nat)
    requires i == 8 * p + c && c < 8
    ensures RevBits(bits + 3, i) == Rev3(c) * Pow2(bits) + RevBits(bits, p)
  {
    hide RevBits, Pow2, Rev3;
    ThreeBits(c, Pow2(bits));
    ThreeSteps(bits, p, c % 2, c / 2 % 2, c / 4);
  }

  lemma RowAt(f: nat, c: nat)
    requires c < 8
    ensures RowFrom(f)[c] == Rev3(c) * 64 + f
  {
  }

  /** The stored table is the 9-bit reversal. */
  lemma TableIsReversal(i: nat)
    requires i < NO_POINTS
    ensures Bitrev(i) == RevBits(9, i)
  {
    hide Row, RowFrom, RevBits, Rev3;
    var r, c := i / 8, i % 8;
    var r0, r1 := r % 8, r / 8;
    RowEntries(r);
    RowAt(8 * Rev3(r0) + Rev3(r1), c);
    RevBitsThreeMore(6, i, c, r);
    RevBitsThreeMore(3, r, r0, r1);
    RevBitsThreeMore(0, r1, r1, 0);
    RevNothing();
  }

  lemma RevNothing()
    ensures RevBits(0, 0) == 0 && Pow2(0) == 1 && Pow2(3) == 8 && Pow2(6) == 64
  {
  }
}
