/** Values the standards print: the trace of "abc" in appendix A.1 of FIPS 180-2, at its start, at
    every change of function and constant and at its end, and the digest of the handshake in section
    1.3 of RFC 6455. */
module HandshakeExamples {
  import opened Basics
  import opened ByteOrder
  import opened Sha1
  import Base64

  const ABC: Bytes := [97, 98, 99]

  /** The block "abc" is padded to: its words are 61626380, thirteen of zero, zero and 18. */
  lemma AbcIsPadded()
    ensures |Padded(ABC)| == 64 && Padded(ABC)[..4] == [0x61, 0x62, 0x63, 0x80]
    ensures Padded(ABC)[4..56] == Zeros(52) && Padded(ABC)[56..] == [0, 0, 0, 0, 0, 0, 0, 24]
  {
    LengthOfAbc();
    FillOfAbc();
    hide Fill, BigEndianBytes;
    assert |ABC| * 8 % 0x1_0000_0000_0000_0000 == 24;
    assert Padded(ABC) == [97, 98, 99, 0x80] + Zeros(52) + [0, 0, 0, 0, 0, 0, 0, 24];
  }

  lemma FillOfAbc()
    ensures Fill(3) == 52
  {}

  lemma LengthOfAbc()
    ensures BigEndianBytes(24, 8) == [0, 0, 0, 0, 0, 0, 0, 24]
  {
    assert BigEndianBytes(0, 1) == [0] && BigEndianBytes(0, 2) == [0, 0] && BigEndianBytes(0, 3) == [0, 0, 0];
    assert BigEndianBytes(0, 4) == [0, 0, 0, 0] && BigEndianBytes(0, 5) == [0, 0, 0, 0, 0];
    assert BigEndianBytes(0, 6) == [0, 0, 0, 0, 0, 0] && BigEndianBytes(0, 7) == [0, 0, 0, 0, 0, 0, 0];
  }

  /** Words of its schedule: 16 and 19 from the message, 79 from those before it. */
  lemma AbcSchedule()
    ensures Expand(0x00000000, 0x00000000, 0x00000000, 0x61626380) == 0xC2C4C700
    ensures Expand(0xC2C4C700, 0x00000000, 0x00000000, 0x00000000) == 0x85898E01
    ensures Expand(0xE6E60B69, 0x458546F4, 0x000F0000, 0x627B49A1) == 0x822E0879
  {}

  lemma FirstRound()
    ensures Round(H0, 0, 0x61626380)
         == State(0x0116FC33, 0x67452301, 0x7BF36AE2, 0x98BADCFE, 0x10325476)
  {}

  lemma SecondRound()
    ensures Round(State(0x0116FC33, 0x67452301, 0x7BF36AE2, 0x98BADCFE, 0x10325476), 1, 0x00000000)
         == State(0x8990536D, 0x0116FC33, 0x59D148C0, 0x7BF36AE2, 0x98BADCFE)
  {}

  lemma ChoiceRound()
    ensures Round(State(0xDC64901D, 0x82AA6728, 0xD3A49608, 0xC82F758B, 0xC65AFB9D), 19, 0x85898E01)
         == State(0xFD9E1D7D, 0xDC64901D, 0x20AA99CA, 0xD3A49608, 0xC82F758B)
  {}

  lemma ParityRound()
    ensures Round(State(0xFD9E1D7D, 0xDC64901D, 0x20AA99CA, 0xD3A49608, 0xC82F758B), 20, 0x00000000)
         == State(0x1A37B0CA, 0xFD9E1D7D, 0x77192407, 0x20AA99CA, 0xD3A49608)
  {}

  lemma MajorityRound()
    ensures Round(State(0x32DE1CBA, 0x4C986405, 0xF718E5CF, 0x03D447F6, 0xF72EEC32), 40, 0xD2E138C4)
         == State(0xFC87DEDF, 0x32DE1CBA, 0x53261901, 0xF718E5CF, 0x03D447F6)
  {}

  lemma LastRound()
    ensures Round(State(0x3F52DE5A, 0x09D785FD, 0x3498BFD4, 0xF211824F, 0xD79915AB), 60, 0x7BA06619)
         == State(0xD756C147, 0x3F52DE5A, 0x4275E17F, 0x3498BFD4, 0xF211824F)
  {}

  lemma EndRound()
    ensures Round(State(0x5738D5E1, 0x860D21CC, 0x681E6DF6, 0xD8FDF6AD, 0xD7B9DA25), 79, 0x822E0879)
         == State(0x42541B35, 0x5738D5E1, 0x21834873, 0x681E6DF6, 0xD8FDF6AD)
  {}

  /** And its digest. */
  lemma AbcDigest()
    ensures Add(H0, State(0x42541B35, 0x5738D5E1, 0x21834873, 0x681E6DF6, 0xD8FDF6AD))
         == State(0xA9993E36, 0x4706816A, 0xBA3E2571, 0x7850C26C, 0x9CD0D89D)
  {}

  lemma LastGroups()
    ensures Base64.DecodeGroup("xOo=", true) == Some([0xC4, 0xEA])
    ensures Base64.DecodeGroup("RbK+", false) == Some([0x45, 0xB2, 0xBE])
    ensures Base64.DecodeGroup("zzhZ", false) == Some([0xCF, 0x38, 0x59])
  {}

  lemma FirstGroups()
    ensures Base64.DecodeGroup("9kYG", false) == Some([0xF6, 0x46, 0x06])
    ensures Base64.DecodeGroup("TxaQ", false) == Some([0x4F, 0x16, 0x90])
    ensures Base64.DecodeGroup("LMBi", false) == Some([0x2C, 0xC0, 0x62])
    ensures Base64.DecodeGroup("s3pP", false) == Some([0xB3, 0x7A, 0x4F])
  {}

  lemma SampleFrom20()
    ensures Base64.Decode("RbK+xOo=")
         == Some([0x45, 0xB2, 0xBE, 0xC4, 0xEA])
  {
    hide Base64.Decode, Base64.DecodeGroup;
    LastGroups();
    NothingDecoded();
    Group("xOo=", "", "xOo=",
          [0xC4, 0xEA],
          [],
          [0xC4, 0xEA]);
    Group("RbK+", "xOo=", "RbK+xOo=",
          [0x45, 0xB2, 0xBE],
          [0xC4, 0xEA],
          [0x45, 0xB2, 0xBE, 0xC4, 0xEA]);
  }

  lemma SampleFrom12()
    ensures Base64.Decode("9kYGzzhZRbK+xOo=")
         == Some([0xF6, 0x46, 0x06, 0xCF, 0x38, 0x59, 0x45, 0xB2, 0xBE, 0xC4, 0xEA])
  {
    hide Base64.Decode, Base64.DecodeGroup;
    FirstGroups();
    LastGroups();
    SampleFrom20();
    Group("zzhZ", "RbK+xOo=", "zzhZRbK+xOo=",
          [0xCF, 0x38, 0x59],
          [0x45, 0xB2, 0xBE, 0xC4, 0xEA],
          [0xCF, 0x38, 0x59, 0x45, 0xB2, 0xBE, 0xC4, 0xEA]);
    Group("9kYG", "zzhZRbK+xOo=", "9kYGzzhZRbK+xOo=",
          [0xF6, 0x46, 0x06],
          [0xCF, 0x38, 0x59, 0x45, 0xB2, 0xBE, 0xC4, 0xEA],
          [0xF6, 0x46, 0x06, 0xCF, 0x38, 0x59, 0x45, 0xB2, 0xBE, 0xC4, 0xEA]);
  }

  lemma SampleFrom4()
    ensures Base64.Decode("LMBiTxaQ9kYGzzhZRbK+xOo=")
         == Some([0x2C, 0xC0, 0x62, 0x4F, 0x16, 0x90, 0xF6, 0x46, 0x06, 0xCF,
                  0x38, 0x59, 0x45, 0xB2, 0xBE, 0xC4, 0xEA])
  {
    hide Base64.Decode, Base64.DecodeGroup;
    FirstGroups();
    SampleFrom12();
    Group("TxaQ", "9kYGzzhZRbK+xOo=", "TxaQ9kYGzzhZRbK+xOo=",
          [0x4F, 0x16, 0x90],
          [0xF6, 0x46, 0x06, 0xCF, 0x38, 0x59, 0x45, 0xB2, 0xBE, 0xC4, 0xEA],
          [0x4F, 0x16, 0x90, 0xF6, 0x46, 0x06, 0xCF, 0x38, 0x59, 0x45, 0xB2, 0xBE, 0xC4, 0xEA]);
    Group("LMBi", "TxaQ9kYGzzhZRbK+xOo=", "LMBiTxaQ9kYGzzhZRbK+xOo=",
          [0x2C, 0xC0, 0x62],
          [0x4F, 0x16, 0x90, 0xF6, 0x46, 0x06, 0xCF, 0x38, 0x59, 0x45, 0xB2, 0xBE, 0xC4, 0xEA],
          [0x2C, 0xC0, 0x62, 0x4F, 0x16, 0x90, 0xF6, 0x46, 0x06, 0xCF, 0x38, 0x59, 0x45, 0xB2, 0xBE, 0xC4, 0xEA]);
  }

  /** The digest of the sample nonce and the text it is sent as. */
  lemma SampleAcceptKey()
    ensures Base64.Decode("s3pP" + "LMBiTxaQ9kYGzzhZRbK+xOo=")
         == Some([0xB3, 0x7A, 0x4F]
                 + [0x2C, 0xC0, 0x62, 0x4F, 0x16, 0x90, 0xF6, 0x46, 0x06,
                    0xCF, 0x38, 0x59, 0x45, 0xB2, 0xBE, 0xC4, 0xEA])
  {
    hide Base64.Decode, Base64.DecodeGroup;
    FirstGroups();
    SampleFrom4();
    var rest, more := "LMBiTxaQ9kYGzzhZRbK+xOo=", Base64.Decode("LMBiTxaQ9kYGzzhZRbK+xOo=").value;
    Group("s3pP", rest, "s3pP" + rest, [0xB3, 0x7A, 0x4F], more, [0xB3, 0x7A, 0x4F] + more);
  }

  lemma NothingDecoded()
    ensures Base64.Decode("") == Some([])
  {}

  lemma Group(q: string, rest: string, text: string, b: Bytes, more: Bytes, bytes: Bytes)
    requires |q| == 4 && Base64.DecodeGroup(q, |rest| == 0) == Some(b) && Base64.Decode(rest) == Some(more)
    requires text == q + rest && bytes == b + more
    ensures Base64.Decode(text) == Some(bytes)
  {
    assert text[..4] == q && text[4..] == rest;
    hide Base64.DecodeGroup;
  }
}
