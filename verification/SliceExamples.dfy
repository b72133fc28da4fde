/** Slice headers bit by bit: one of each standard, as the syntax tables have it. */
module SliceExamples {
  import opened Bytes
  import opened BitReaders
  import opened SliceHeaders

  lemma FourBits(v: nat)
    requires v < 16
    ensures Bin(v, 4) == [(v / 8) % 2 == 1, (v / 4) % 2 == 1, (v / 2) % 2 == 1, v % 2 == 1]
  {
    assert v / 2 / 2 == v / 4 && v / 4 / 2 == v / 8;
    assert Bin(v, 4) == Bin(v / 2, 3) + [v % 2 == 1];
    assert Bin(v / 2, 3) == Bin(v / 4, 2) + [(v / 2) % 2 == 1];
    assert Bin(v / 4, 2) == Bin(v / 8, 1) + [(v / 4) % 2 == 1];
    assert Bin(v / 8, 1) == Bin(v / 16, 0) + [(v / 8) % 2 == 1];
  }

  /**
   * Section 7.3.3 of H.264: first_mb_in_slice 0, slice_type 2, pic_parameter_set_id 1, frame_num 5 and
   * pic_order_cnt_lsb 10 in four bits each.
   */
  lemma Slice264(h: Head264)
    requires h.firstMb == 0 && h.sliceType == 2 && h.ppsId == 1 && h.frameNum == 5 && h.lsb == 10
    ensures Bits264(h, 4, 4)
         == [true] + [false, true, true] + [false, true, false] + [false, true, false, true]
             + [true, false, true, false]
  {
    hide UeCode, Bin;
    FirstCodewords(h.firstMb);
    FirstCodewords(h.sliceType);
    FirstCodewords(h.ppsId);
    FourBits(h.frameNum);
    FourBits(h.lsb);
  }

  /**
   * Section 7.3.6.1 of H.265, a trailing picture: first_slice_segment_in_pic_flag, slice_pic_parameter_set_id 0,
   * one reserved flag set, slice_type 1, pic_output_flag and slice_pic_order_cnt_lsb 10.
   */
  lemma Trailing265(h: Head265, p: Sets265)
    requires h.first && h.ppsId == 0 && h.extra == [true] && h.sliceType == 1 && h.outputFlag && h.lsb == 10
    requires p == Sets265(4, 1, true)
    ensures Bits265(h, 1, p)
         == [true] + ([true] + ([true] + ([false, true, false] + ([true] + [true, false, true, false]))))
  {
    hide *;
    Pieces265(h);
    Parts265(h, p);
  }

  lemma Pieces265(h: Head265)
    requires h.ppsId == 0 && h.sliceType == 1 && h.lsb == 10
    ensures UeCode(h.ppsId) == [true] && UeCode(h.sliceType) == [false, true, false]
    ensures Bin(h.lsb, 4) == [true, false, true, false]
  {
    hide UeCode, Bin;
    FirstCodewords(h.ppsId);
    FirstCodewords(h.sliceType);
    FourBits(h.lsb);
  }

  lemma Parts265(h: Head265, p: Sets265)
    requires h.first && h.outputFlag && p.outputFlagPresent
    ensures Bits265(h, 1, p)
         == [true] + (UeCode(h.ppsId) + (h.extra + (UeCode(h.sliceType) + ([true] + Bin(h.lsb, p.log2Poc)))))
  {
    hide UeCode, Bin;
    var rest := UeCode(h.ppsId) + (h.extra + TypeBits(h, p));
    assert [] + rest == rest;
  }

  /** The same of a CRA picture without reserved and output flags: no_output_of_prior_pics_flag comes second. */
  lemma Cra265(h: Head265, p: Sets265)
    requires h.first && !h.noOutput && h.ppsId == 0 && h.extra == [] && h.sliceType == 2 && h.lsb == 10
    requires p == Sets265(4, 0, false)
    ensures Bits265(h, 21, p) == [true] + ([false] + ([true] + ([false, true, true] + [true, false, true, false])))
  {
    hide *;
    CraPieces(h);
    CraParts(h, p);
  }

  lemma CraParts(h: Head265, p: Sets265)
    requires h.first && !h.noOutput && h.extra == [] && !p.outputFlagPresent
    ensures Bits265(h, 21, p) == [true] + ([false] + (UeCode(h.ppsId) + (UeCode(h.sliceType) + Bin(h.lsb, p.log2Poc))))
  {
    hide UeCode, Bin;
    var bits := Bin(h.lsb, p.log2Poc);
    assert [] + bits == bits;
    var rest := UeCode(h.sliceType) + bits;
    assert h.extra + rest == rest;
  }

  lemma CraPieces(h: Head265)
    requires h.ppsId == 0 && h.sliceType == 2 && h.lsb == 10
    ensures UeCode(h.ppsId) == [true] && UeCode(h.sliceType) == [false, true, true]
    ensures Bin(h.lsb, 4) == [true, false, true, false]
  {
    hide UeCode, Bin;
    FirstCodewords(h.ppsId);
    FirstCodewords(h.sliceType);
    FourBits(h.lsb);
  }

  /** And of an IDR picture: nothing behind the parameter set. */
  lemma Idr265(h: Head265, p: Sets265)
    requires h.first && h.noOutput && h.ppsId == 1
    ensures Bits265(h, 19, p) == [true] + [true] + [false, true, false]
  {
    hide UeCode, Bin;
    FirstCodewords(h.ppsId);
  }

  /**
   * Sections 7.3.7 and 7.3.2.8 of H.266, a picture header in its slice header: sh_picture_header_in_slice_header_flag,
   * ph_gdr_or_irap_pic_flag, ph_non_ref_pic_flag, ph_gdr_pic_flag, ph_inter_slice_allowed_flag,
   * ph_intra_slice_allowed_flag, ph_pic_parameter_set_id 1 and ph_pic_order_cnt_lsb 10.
   */
  lemma Picture266(h: Head266)
    requires h.inSlice && h.gdrOrIrap && !h.nonRef && h.gdr && h.inter && !h.intra && h.ppsId == 1 && h.lsb == 10
    ensures Bits266(h, 4)
         == [true] + [true] + [false] + [true] + [true] + [false] + [false, true, false] + [true, false, true, false]
  {
    hide UeCode, Bin;
    FirstCodewords(h.ppsId);
    FourBits(h.lsb);
  }

  /** Without the optional flags. */
  lemma Plain266(h: Head266)
    requires h.inSlice && !h.gdrOrIrap && h.nonRef && !h.inter && h.ppsId == 0 && h.lsb == 10
    ensures Bits266(h, 4) == [true] + [false] + [true] + [false] + [true] + [true, false, true, false]
  {
    hide UeCode, Bin;
    FirstCodewords(h.ppsId);
    FourBits(h.lsb);
  }
}
