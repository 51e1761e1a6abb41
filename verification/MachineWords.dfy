/** Hash states in 32-bit machine words, and one computation on them: the seven rounds that derive the context key.
    Every sum and every rotation of it is checked here. */
module MachineWords {
  datatype Machine = Machine(v: bv32)

  predicate Adds(z: bv32, x: bv32, y: bv32) { z == x + y }

  /** z is the exclusive or of x and y, rotated right by r. */
  predicate Turns16(z: bv32, x: bv32, y: bv32) { z == (x ^ y).RotateRight(16) }

  predicate Turns12(z: bv32, x: bv32, y: bv32) { z == (x ^ y).RotateRight(12) }

  predicate Turns8(z: bv32, x: bv32, y: bv32) { z == (x ^ y).RotateRight(8) }

  predicate Turns7(z: bv32, x: bv32, y: bv32) { z == (x ^ y).RotateRight(7) }

  predicate Sum(z: Machine, x: Machine, y: Machine) { Adds(z.v, x.v, y.v) }

  predicate Turned(z: Machine, x: Machine, y: Machine, r: nat)
  {
    if r == 16 then Turns16(z.v, x.v, y.v)
    else if r == 12 then Turns12(z.v, x.v, y.v)
    else if r == 8 then Turns8(z.v, x.v, y.v)
    else Turns7(z.v, x.v, y.v)
  }

  /** Four words of a state. */
  datatype Four = Four(a: Machine, b: Machine, c: Machine, d: Machine)

  function Of(a: bv32, b: bv32, c: bv32, d: bv32): Four { Four(Machine(a), Machine(b), Machine(c), Machine(d)) }

  /** Half a quarter round takes f to g; s is the first sum on the way. */
  predicate Halves(f: Four, g: Four, s: Machine, x: Machine, r1: nat, r2: nat)
  {
    Sum(s, f.a, f.b) && Sum(g.a, s, x) && Turned(g.d, f.d, g.a, r1) && Sum(g.c, f.c, g.d) && Turned(g.b, f.b, g.c, r2)
  }

  /** A quarter round takes f to g, with message words x and y. */
  predicate Mixes(f: Four, e: Four, g: Four, s: Machine, t: Machine, x: Machine, y: Machine)
  {
    Halves(f, e, s, x, 16, 12) && Halves(e, g, t, y, 8, 7)
  }

  /** A state in four groups of four words: its columns or its diagonals. */
  datatype State = State(p: Four, q: Four, r: Four, s: Four)

  /** Four quarter rounds side by side. */
  predicate MixAll(f: State, e: State, g: State, s: Four, t: Four, x: Four, y: Four)
  {
    && Mixes(f.p, e.p, g.p, s.a, t.a, x.a, y.a) && Mixes(f.q, e.q, g.q, s.b, t.b, x.b, y.b)
    && Mixes(f.r, e.r, g.r, s.c, t.c, x.c, y.c) && Mixes(f.s, e.s, g.s, s.d, t.d, x.d, y.d)
  }

  /** From columns to diagonals. */
  function Diagonals(t: State): State
  {
    State(Four(t.p.a, t.q.b, t.r.c, t.s.d), Four(t.q.a, t.r.b, t.s.c, t.p.d), Four(t.r.a, t.s.b, t.p.c, t.q.d), Four(t.s.a, t.p.b, t.q.c, t.r.d))
  }

  /** And back. */
  function Columns(t: State): State
  {
    State(Four(t.p.a, t.s.b, t.r.c, t.q.d), Four(t.q.a, t.p.b, t.s.c, t.r.d), Four(t.r.a, t.q.b, t.p.c, t.s.d), Four(t.s.a, t.r.b, t.q.c, t.p.d))
  }

  /** g is what four quarter rounds make of f with message words x and y. */
  ghost predicate Takes(f: State, g: State, x: Four, y: Four)
  {
    exists e: State, s: Four, t: Four :: MixAll(f, e, g, s, t, x, y)
  }

  // ---- the computation -----------------------------------------------------

  /** The words of the context string, padded with zeros. */
  function TextWord(i: nat): Machine
  {
    if i == 0 then Machine(0x6E696C62)
    else if i == 1 then Machine(0x736D2D64)
    else if i == 2 then Machine(0x77742073)
    else if i == 3 then Machine(0x616B6165)
    else if i == 4 then Machine(0x20656C62)
    else if i == 5 then Machine(0x68736168)
    else if i == 6 then Machine(0x00327620)
    else Machine(0)
  }

  function Pick(i: nat, j: nat, k: nat, l: nat): Four { Four(TextWord(i), TextWord(j), TextWord(k), TextWord(l)) }

  /** The state the computation starts from, by columns. */
  function Start(): State
  {
    State(Of(0x6A09E667, 0x510E527F, 0x6A09E667, 0),
          Of(0xBB67AE85, 0x9B05688C, 0xBB67AE85, 0),
          Of(0x3C6EF372, 0x1F83D9AB, 0x3C6EF372, 0x0000001B),
          Of(0xA54FF53A, 0x5BE0CD19, 0xA54FF53A, 0x0000002B))
  }

  function Exit0(): State
  {
    State(Of(0x7664B871, 0x79B2A1B3, 0x00253C79, 0xF0D32C91),
          Of(0x7DF3377A, 0xE38120D5, 0x8E36F460, 0x9B4A77FA),
          Of(0x4AE23FF2, 0x0C8CA0A6, 0x2046F60D, 0xAA738643),
          Of(0xB9AB9CE6, 0x93B6C31C, 0x6329EA3A, 0x8581F39D))
  }

  lemma Step0()
    ensures Takes(Start(), Exit0(), Pick(0, 2, 4, 6), Pick(1, 3, 5, 7))
  {
    assert MixAll(Start(),
                  State(Of(0x2981A548, 0xD975E5C5, 0x0F520FE8, 0xA5482981),
                        Of(0xCDE13784, 0x4EA69E91, 0xF2EC7C66, 0x3784CDE1),
                        Of(0x7C58397F, 0x6616A50B, 0x75D36FCA, 0x39647C58),
                        Of(0x01633873, 0xB8486473, 0xDDA7F69D, 0x38580163)),
                  Exit0(), Of(0xBB1838E6, 0x566D1711, 0x5BF2CD1D, 0x0130C253), Of(0x02F78B0D, 0x1C87D615, 0xE26EDE8A, 0xB9AB9CE6),
                  Pick(0, 2, 4, 6), Pick(1, 3, 5, 7));
  }

  function Exit1(): State
  {
    State(Of(0x84306385, 0x1E0D3668, 0x2CD1BE30, 0xE1AEEBBF),
          Of(0xCE858D9C, 0x43982059, 0x881599DD, 0x303A34F7),
          Of(0xF3A76E02, 0x06A75D7F, 0x46A0D577, 0xD187532B),
          Of(0xF74228CB, 0x19DD0598, 0x2D61263E, 0xE64F98B1))
  }

  lemma Step1()
    ensures Takes(Diagonals(Exit0()), Exit1(), Pick(8, 10, 12, 14), Pick(9, 11, 13, 15))
  {
    assert MixAll(Diagonals(Exit0()),
                  State(Of(0x59E5D946, 0x2A4A8A3F, 0x4B22D271, 0x2ADBDC64),
                        Of(0x8A7FD820, 0x4405B57C, 0x57DB64E6, 0xF4B17AAC),
                        Of(0xDE99030E, 0x150E6AF4, 0x7519824C, 0x74F445D3),
                        Of(0x335E3E99, 0xC3E3EA32, 0x47118D8D, 0xB8DA992D)),
                  Exit1(), Of(0x59E5D946, 0x8A7FD820, 0xDE99030E, 0x335E3E99), Of(0x84306385, 0xCE858D9C, 0xF3A76E02, 0xF74228CB),
                  Pick(8, 10, 12, 14), Pick(9, 11, 13, 15));
  }

  function Exit2(): State
  {
    State(Of(0x0055DD5F, 0x0A04C9E7, 0xE8C52E2A, 0xE4BD32F8),
          Of(0x9BFA0058, 0x7910D543, 0xC5917B53, 0x21EDB89C),
          Of(0xA538FD07, 0x0C89C0C7, 0xBB7061CC, 0x77B3D22C),
          Of(0x6A796B98, 0x7AAB6EF9, 0x199D0451, 0x78736A94))
  }

  lemma Step2()
    ensures Takes(Columns(Exit1()), Exit2(), Pick(2, 3, 7, 4), Pick(6, 10, 0, 13))
  {
    assert MixAll(Columns(Exit1()),
                  State(Of(0x15818990, 0xEAA1DDAF, 0x0407FB32, 0xBD6725BB),
                        Of(0x4DFE2569, 0x4DFBDAEF, 0xA3A3C2B7, 0x76429C79),
                        Of(0x373F8E5B, 0xFF90024A, 0x43BC8FA0, 0x16EAD170),
                        Of(0x1E4EF2AC, 0x4C2A78EC, 0xA12999BD, 0x1913FFE0)),
                  Exit2(), Of(0x9E0D691D, 0xEC92C404, 0x373F8E5B, 0xFDE9864A), Of(0x0023673F, 0x9BFA0058, 0x36CF90A5, 0x6A796B98),
                  Pick(2, 3, 7, 4), Pick(6, 10, 0, 13));
  }

  function Exit3(): State
  {
    State(Of(0x1FC7D128, 0x27F8D775, 0xCE984BB1, 0x88955545),
          Of(0x15773360, 0xAED1D5E3, 0x6C6AE10E, 0x5EE6907F),
          Of(0x4C90E8A0, 0x5294AA0B, 0x66F97909, 0xA9980CD6),
          Of(0xE0F8A38A, 0x973F2C89, 0xF3EC2AC0, 0x4707ABA0))
  }

  lemma Step3()
    ensures Takes(Diagonals(Exit2()), Exit3(), Pick(1, 12, 9, 15), Pick(11, 5, 14, 8))
  {
    assert MixAll(Diagonals(Exit2()),
                  State(Of(0xECD3E006, 0x32F3F122, 0x4602F66C, 0x8A9294A0),
                        Of(0xA883C11F, 0x048010D9, 0x0D84508F, 0xF3E74C3E),
                        Of(0x1FE46C00, 0x2CAC7CA0, 0xBD616C33, 0xD49C3E09),
                        Of(0x747E357F, 0x6C7A6E0B, 0xACE47F20, 0xE75303CD)),
                  Exit3(), Of(0x7966B2A2, 0xA883C11F, 0x1FE46C00, 0x747E357F), Of(0x1FC7D128, 0xAD03D1F8, 0x4C90E8A0, 0xE0F8A38A),
                  Pick(1, 12, 9, 15), Pick(11, 5, 14, 8));
  }

  function Exit4(): State
  {
    State(Of(0x6A21E151, 0x3B9A843B, 0xFC080844, 0xC5A548A7),
          Of(0xCB4DEC4B, 0xAC20C1DE, 0x9DBD0E20, 0xA3CD4E78),
          Of(0x522BB5D3, 0x848AAF8D, 0x9A03101F, 0xB6470809),
          Of(0x966AC888, 0xD4EE2E58, 0x15CA5699, 0x908EBA73))
  }

  lemma Step4()
    ensures Takes(Columns(Exit3()), Exit4(), Pick(3, 10, 13, 7), Pick(4, 12, 2, 14))
  {
    assert MixAll(Columns(Exit3()),
                  State(Of(0x18725F16, 0x314A15D9, 0x3662BF9D, 0xCF694694),
                        Of(0x3D700AD5, 0x8DDDE176, 0xF9EFBFA8, 0x060394E8),
                        Of(0xFB62BE83, 0xDF54D6DD, 0xE3BC0816, 0x1523BC65),
                        Of(0x338D4D95, 0x62DD7AF3, 0x853B9C26, 0x18D0BB18)),
                  Exit4(), Of(0xB706FDB1, 0x3D700AD5, 0xFB62BE83, 0x338D4D95), Of(0x49BC74EF, 0xCB4DEC4B, 0xDAB79560, 0x966AC888),
                  Pick(3, 10, 13, 7), Pick(4, 12, 2, 14));
  }

  function Exit5(): State
  {
    State(Of(0xEB318CAC, 0xA3F19D6B, 0x9487A424, 0x57480D0A),
          Of(0xA7F8E46E, 0x602A1169, 0xFCBE6884, 0x1374876E),
          Of(0x5B210F85, 0xF39897A9, 0xF84CFFA3, 0x51F1728B),
          Of(0xAB100C06, 0x2A85D5BA, 0x27774CCA, 0x44EFDA68))
  }

  lemma Step5()
    ensures Takes(Diagonals(Exit4()), Exit5(), Pick(6, 9, 11, 8), Pick(5, 0, 15, 1))
  {
    assert MixAll(Diagonals(Exit4()),
                  State(Of(0x1675194F, 0x6C4911F5, 0x3D3F971A, 0xA33C86FB),
                        Of(0x4FD89BD8, 0xE9B6DC34, 0xE949E116, 0xD37F8A7D),
                        Of(0x2719E42B, 0x34072B5A, 0xA65B8D18, 0xAA5384D4),
                        Of(0xD2054CC3, 0x659D91DF, 0xE2877262, 0x44CA6442)),
                  Exit5(), Of(0x1642A32F, 0x4FD89BD8, 0x2719E42B, 0xD2054CC3), Of(0x82BE2B44, 0x398F780C, 0x5B210F85, 0x37A2DEA2),
                  Pick(6, 9, 11, 8), Pick(5, 0, 15, 1));
  }

  function Exit6(): State
  {
    State(Of(0x5386DF73, 0x656789D0, 0x8E0B953F, 0xB0B68ED9),
          Of(0x04D61568, 0xF66C56F2, 0x8EC0EAF4, 0x73F7840F),
          Of(0x46D5749E, 0x31C7A80A, 0xC9CAF753, 0x3ABC538B),
          Of(0xFB7E3379, 0x2830DF03, 0x44BA0E5E, 0x9955DBFA))
  }

  lemma Step6()
    ensures Takes(Columns(Exit5()), Exit6(), Pick(10, 12, 14, 13), Pick(7, 9, 3, 15))
  {
    assert MixAll(Columns(Exit5()),
                  State(Of(0x15B76266, 0x3DCF7D0D, 0xDD550666, 0xE50806C3),
                        Of(0x4BEA81D9, 0xB8EB938F, 0x1AC966E5, 0xF3521A1B),
                        Of(0xBB4B20EE, 0x2A1EF24B, 0x8F0EA3C8, 0xFA86FFA4),
                        Of(0x9EA8A3AF, 0x5CD58FCA, 0xAB643264, 0xAEA5C9E0)),
                  Exit6(), Of(0x15B76266, 0x4BEA81D9, 0xBB4B20EE, 0x9EA8A3AF), Of(0x5386DF73, 0x04D61568, 0xE56A1339, 0xFB7E3379),
                  Pick(10, 12, 14, 13), Pick(7, 9, 3, 15));
  }

  function Exit7(): State
  {
    State(Of(0xA1ED6574, 0x7AEB95D9, 0xBCE1BAF6, 0x79D8D096),
          Of(0x76467808, 0x48A73E31, 0x9BAB8287, 0x2345EDFE),
          Of(0x44632737, 0xFC28DDDA, 0x78879F50, 0xB9756583),
          Of(0xD7A788D2, 0x9B0EE8E6, 0x84565B48, 0x3C6E8166))
  }

  lemma Step7()
    ensures Takes(Diagonals(Exit6()), Exit7(), Pick(4, 11, 5, 1), Pick(0, 2, 8, 6))
  {
    assert MixAll(Diagonals(Exit6()),
                  State(Of(0x6A58A2C7, 0xC92B564B, 0x4308EA60, 0x793DF30D),
                        Of(0x369DBD72, 0xC8349A23, 0x78659489, 0x33AB862B),
                        Of(0xD779B509, 0x6CE9722E, 0xBF1239CD, 0x3106A48E),
                        Of(0xD452EAAD, 0x03222805, 0x47E7D9E2, 0xB926EEEE)),
                  Exit7(), Of(0x49F33665, 0x369DBD72, 0x6F0653A1, 0x60E5BD49), Of(0x3383F912, 0xFED25795, 0x44632737, 0xD77512B2),
                  Pick(4, 11, 5, 1), Pick(0, 2, 8, 6));
  }

  function Exit8(): State
  {
    State(Of(0xBBF4C0AF, 0x7A9978FB, 0x32440FE8, 0x161850DF),
          Of(0x569B7314, 0xF2B53DF3, 0x3FF79CCA, 0x533EF93B),
          Of(0xB3C8EADD, 0x80F9ED6F, 0x5A4832B5, 0xB957C65B),
          Of(0xE92B439B, 0x2FE03FC5, 0xE5453E78, 0x935F11E9))
  }

  lemma Step8()
    ensures Takes(Columns(Exit7()), Exit8(), Pick(12, 9, 15, 14), Pick(13, 11, 10, 8))
  {
    assert MixAll(Columns(Exit7()),
                  State(Of(0x3CFC4E5A, 0x7EF87255, 0x1C2BBF09, 0xA3A41FB9),
                        Of(0xF1320DE1, 0x65696533, 0xECB8A38F, 0x68624847),
                        Of(0x8D0A6568, 0x26BE8575, 0xA0F06C5A, 0xE40EB164),
                        Of(0xD3D066AC, 0x155ADCEF, 0x51E62C8F, 0xB63AAA08)),
                  Exit8(), Of(0x3CFC4E5A, 0xF1320DE1, 0x8D0A6568, 0xD3D066AC), Of(0xBBF4C0AF, 0x569B7314, 0xB3C8EADD, 0xE92B439B),
                  Pick(12, 9, 15, 14), Pick(13, 11, 10, 8));
  }

  function Exit9(): State
  {
    State(Of(0xFBA9D179, 0xE61A47C3, 0xD8A85397, 0x8F14E2EC),
          Of(0x3FF38B57, 0xC440AE68, 0xBE285C65, 0x47AEC7DD),
          Of(0xB298BA9A, 0xFB748E9D, 0x575FB8CF, 0xB6DCA7BB),
          Of(0x7D7186D8, 0x0CA8F7E8, 0xAD6F13C6, 0x78899C5C))
  }

  lemma Step9()
    ensures Takes(Diagonals(Exit8()), Exit9(), Pick(7, 5, 0, 6), Pick(2, 3, 1, 4))
  {
    assert MixAll(Diagonals(Exit8()),
                  State(Of(0xAEA9FEA2, 0xD58BB264, 0x499370AB, 0xEF4B3DF6),
                        Of(0x4008C1EB, 0x9E7F6807, 0x76799488, 0x91345610),
                        Of(0x52129704, 0xED18F632, 0xA0831114, 0x6E3F012C),
                        Of(0x63F732B6, 0xF914E7C0, 0x34E5776A, 0xF4EDDAA0)),
                  Exit9(), Of(0xAEA9FEA2, 0xD7956083, 0xE3A92AA2, 0x63C4BC96), Of(0x8435B106, 0xDE8829F2, 0x3F2B8D36, 0x5D0C1A76),
                  Pick(7, 5, 0, 6), Pick(2, 3, 1, 4));
  }

  function Exit10(): State
  {
    State(Of(0xFA8974B0, 0x92824D2A, 0xB3103E06, 0x4CF4353B),
          Of(0xC3CD7530, 0xA46D08A3, 0x03C8117C, 0xE1B76CE5),
          Of(0x6FCA0D6E, 0x0DE8A0A3, 0x0CA0F5EA, 0x3E9A9403),
          Of(0x98F82E46, 0xBB8D2ABA, 0x6A31B630, 0xB46F61D9))
  }

  lemma Step10()
    ensures Takes(Columns(Exit9()), Exit10(), Pick(9, 11, 8, 15), Pick(14, 5, 12, 1))
  {
    assert MixAll(Columns(Exit9()),
                  State(Of(0x0852C961, 0xF236AB4F, 0x661C08CB, 0x0EBC4FFC),
                        Of(0x260DD31A, 0x354C40AE, 0x2210A497, 0x74A190D1),
                        Of(0x76D96902, 0xF8F0A46C, 0xCE0661E7, 0xF55E0E50),
                        Of(0x78E61575, 0xACA4EB6D, 0xB5C25457, 0xF799F7F2)),
                  Exit10(), Of(0x0852C961, 0x260DD31A, 0x76D96902, 0x78E61575), Of(0xFA8974B0, 0x5B5A13C8, 0x6FCA0D6E, 0x258B00E2),
                  Pick(9, 11, 8, 15), Pick(14, 5, 12, 1));
  }

  function Exit11(): State
  {
    State(Of(0x826AB31A, 0xFC5D85AA, 0xACCA011C, 0x839EE099),
          Of(0x7BA24FAB, 0x50B31D44, 0x620C6F5E, 0x40CCAC43),
          Of(0x56838EF5, 0xEB86E97E, 0x70F17F4F, 0x8962FDCD),
          Of(0x0A9E398E, 0x63FB590F, 0x4312D60D, 0xCB794F4C))
  }

  lemma Step11()
    ensures Takes(Diagonals(Exit10()), Exit11(), Pick(13, 0, 2, 4), Pick(3, 10, 6, 7))
  {
    assert MixAll(Diagonals(Exit10()),
                  State(Of(0x9EF67D53, 0x8208D462, 0x292B2083, 0x1C8A2A99),
                        Of(0x401F8235, 0x3B82CD76, 0x213FC31B, 0xB70E0CEB),
                        Of(0xA2CB589B, 0xB385C03A, 0xE78E8182, 0x347E437C),
                        Of(0x4BDFE7D2, 0xBEBE51BC, 0x779986C1, 0x73D17545)),
                  Exit11(), Of(0x9EF67D53, 0xD1B615D3, 0x2B573828, 0x2B7A7B70), Of(0x20FF51B5, 0x7BA24FAB, 0x565118D5, 0x0A9E398E),
                  Pick(13, 0, 2, 4), Pick(3, 10, 6, 7));
  }

  function Exit12(): State
  {
    State(Of(0xB5CD36A0, 0xFDA82DCF, 0x1B71CD89, 0x0A15A790),
          Of(0xFA2BD10A, 0x7B05F76E, 0x29B49AD6, 0x1B315BB8),
          Of(0x15C50C29, 0xBF987FAA, 0x371EE7D3, 0xF38314DD),
          Of(0xBCD47B9C, 0xAF16BB88, 0x4D212627, 0x277F410E))
  }

  lemma Step12()
    ensures Takes(Columns(Exit11()), Exit12(), Pick(11, 5, 1, 8), Pick(15, 0, 9, 6))
  {
    assert MixAll(Columns(Exit11()),
                  State(Of(0xE6660C29, 0xCF672A77, 0x115C25F9, 0xA06AA6AA),
                        Of(0xE07336BD, 0xAB4F2DEB, 0x0E833F1E, 0xCB706911),
                        Of(0x1AA3D99D, 0xFB21328C, 0x439BD2F6, 0x96D1D1DA),
                        Of(0xF625230C, 0xC67CE270, 0x25A1E519, 0xC39575BB)),
                  Exit12(), Of(0xE6660C29, 0x77FFD555, 0xA736AC39, 0xF625230C), Of(0xB5CD36A0, 0x8BC264A8, 0x15C50C29, 0xBCA2057C),
                  Pick(11, 5, 1, 8), Pick(15, 0, 9, 6));
  }

  function Exit13(): State
  {
    State(Of(0xB1F0FFBE, 0xAE73C043, 0xB8FDF067, 0x12DEF0E8),
          Of(0x21223528, 0xC78C4C64, 0x29CFF662, 0x05F7950E),
          Of(0x5E1EA8E3, 0xFE687D51, 0x234CBB94, 0x952CB095),
          Of(0x4C1E5597, 0xBB83FA41, 0x505C8CF1, 0x68F1A81C))
  }

  lemma Step13()
    ensures Takes(Diagonals(Exit12()), Exit13(), Pick(14, 2, 3, 7), Pick(10, 12, 4, 13))
  {
    assert MixAll(Diagonals(Exit12()),
                  State(Of(0x30D32E0E, 0x811DD1B0, 0xA61EFF7F, 0x6F0017AC),
                        Of(0x31387127, 0xEFE9C401, 0x23D86154, 0xD6B73B2D),
                        Of(0x26472916, 0x1772136B, 0x8E200AFF, 0x72AE3D76),
                        Of(0xBA7CA96B, 0x91A1AC2C, 0xE76AE4D5, 0xBDB649FF)),
                  Exit13(), Of(0x30D32E0E, 0xB9C450B4, 0xC4DBC7B1, 0xBA7CA96B), Of(0xB1F0FFBE, 0x21223528, 0x3DB93C81, 0x4C1E5597),
                  Pick(14, 2, 3, 7), Pick(10, 12, 4, 13));
  }
}
