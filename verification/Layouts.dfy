/** The structures of the device's commands, field by field in order, and where in them the model puts
    every field it reads or writes. */
module Layouts {
  import opened CommandBuffer
  import FM = FlowMatcher
  import FR = FlowRule
  import MH = ModifyHeader
  import PM = PatternMkey
  import PP = PacketPacing
  import QG = QueueGeometry
  import SC = SteeringCommands
  import TC = TirCache

  /** fte_match_set_lyr_2_4, src/dcmd/prm.h:501 */
  const LYR_2_4 := [Field(0x0, 32), Field(0x20, 16), Field(0x30, 16), Field(0x40, 32), Field(0x60, 16),
    Field(0x70, 3), Field(0x73, 1), Field(0x74, 12), Field(0x80, 8), Field(0x88, 6), Field(0x8e, 2), Field(0x90, 1),
    Field(0x91, 1), Field(0x92, 1), Field(0x93, 4), Field(0x97, 9), Field(0xa0, 16), Field(0xb0, 16), Field(0xc0, 24),
    Field(0xd8, 8), Field(0xe0, 16), Field(0xf0, 16), Field(0x100, 96), Field(0x160, 32), Field(0x180, 96),
    Field(0x1e0, 32)]

  /** fte_match_set_misc2, src/dcmd/prm.h:1434 */
  const MISC_2 := [Field(0x0, 32), Field(0x20, 32), Field(0x40, 32), Field(0x60, 32), Field(0x80, 32),
    Field(0xa0, 32), Field(0xc0, 32), Field(0xe0, 32), Field(0x100, 32), Field(0x120, 32), Field(0x140, 32),
    Field(0x160, 32)]

  /** fte_match_set_misc4, src/dcmd/prm.h:1512 */
  const MISC_4 := [Field(0x0, 32), Field(0x20, 32), Field(0x40, 32), Field(0x60, 32), Field(0x80, 32),
    Field(0xa0, 32), Field(0xc0, 32), Field(0xe0, 32), Field(0x100, 32), Field(0x120, 32), Field(0x140, 32),
    Field(0x160, 32), Field(0x180, 32), Field(0x1a0, 32), Field(0x1c0, 32), Field(0x1e0, 32)]

  /** fte_match_param, src/dcmd/prm.h:1573 */
  const MATCH_PARAM := [Field(0x0, 512), Field(0x200, 512), Field(0x400, 512), Field(0x600, 512), Field(0x800, 512),
    Field(0xa00, 512), Field(0xc00, 512), Field(0xe00, 512)]

  /** set_fte_in, src/dcmd/prm.h:4096 */
  const SET_FTE := [Field(0x0, 16), Field(0x10, 16), Field(0x20, 16), Field(0x30, 16), Field(0x40, 1),
    Field(0x41, 15), Field(0x50, 16), Field(0x60, 32), Field(0x80, 8), Field(0x88, 24), Field(0xa0, 8),
    Field(0xa8, 24), Field(0xc0, 24), Field(0xd8, 8), Field(0xe0, 32), Field(0x100, 32), Field(0x120, 224)]

  /** flow_context, src/dcmd/prm.h:2888 */
  const FLOW_CONTEXT := [Field(0x0, 32), Field(0x20, 32), Field(0x40, 8), Field(0x48, 24), Field(0x60, 16),
    Field(0x70, 16), Field(0x80, 8), Field(0x88, 24), Field(0xa0, 8), Field(0xa8, 24), Field(0xc0, 32),
    Field(0xe0, 32), Field(0x100, 256), Field(0x200, 4096), Field(0x1200, 1536)]

  /** dest_format_struct, src/dcmd/prm.h:1408 */
  const DEST_FORMAT := [Field(0x0, 8), Field(0x8, 24), Field(0x20, 32)]

  /** create_flow_table_in, src/dcmd/prm.h:7677 */
  const CREATE_TABLE := [Field(0x0, 16), Field(0x10, 16), Field(0x20, 16), Field(0x30, 16), Field(0x40, 1),
    Field(0x41, 15), Field(0x50, 16), Field(0x60, 32), Field(0x80, 8), Field(0x88, 24), Field(0xa0, 32)]

  /** flow_table_context, src/dcmd/prm.h:7654 */
  const TABLE_CONTEXT := [Field(0x0, 1), Field(0x1, 1), Field(0x2, 1), Field(0x3, 1), Field(0x4, 4), Field(0x8, 8),
    Field(0x10, 8), Field(0x18, 8), Field(0x20, 8), Field(0x28, 24)]

  /** create_flow_group_in, src/dcmd/prm.h:7716 */
  const CREATE_GROUP := [Field(0x0, 16), Field(0x10, 16), Field(0x20, 16), Field(0x30, 16), Field(0x40, 1),
    Field(0x41, 15), Field(0x50, 16), Field(0x60, 32), Field(0x80, 8), Field(0x88, 24), Field(0xa0, 8),
    Field(0xa8, 24), Field(0xc0, 32), Field(0xe0, 32), Field(0x100, 32), Field(0x120, 32), Field(0x140, 160),
    Field(0x1e0, 24), Field(0x1f8, 8), Field(0x200, 4096)]

  /** alloc_modify_header_context_in, src/dcmd/prm.h:5582 */
  const ALLOC_MODIFY := [Field(0x0, 16), Field(0x10, 16), Field(0x20, 16), Field(0x30, 16), Field(0x40, 32),
    Field(0x60, 8), Field(0x68, 16), Field(0x78, 8)]

  /** set_action_in, src/dcmd/prm.h:5498 */
  const SET_ACTION := [Field(0x0, 4), Field(0x4, 12), Field(0x10, 3), Field(0x13, 5), Field(0x18, 3), Field(0x1b, 5),
    Field(0x20, 32)]

  /** copy_action_in, src/dcmd/prm.h:5517 */
  const COPY_ACTION := [Field(0x0, 4), Field(0x4, 12), Field(0x10, 3), Field(0x13, 5), Field(0x18, 3), Field(0x1b, 5),
    Field(0x20, 4), Field(0x24, 12), Field(0x30, 3), Field(0x33, 5), Field(0x38, 8)]

  /** create_mkey_in, src/dcmd/prm.h:7609 */
  const CREATE_MKEY := [Field(0x0, 16), Field(0x10, 16), Field(0x20, 16), Field(0x30, 16), Field(0x40, 32),
    Field(0x60, 1), Field(0x61, 1), Field(0x62, 1), Field(0x63, 13), Field(0x70, 16), Field(0x80, 512),
    Field(0x280, 128), Field(0x300, 32), Field(0x320, 32), Field(0x340, 64), Field(0x380, 16), Field(0x390, 16),
    Field(0x3a0, 1248)]

  /** mkc, src/dcmd/prm.h:3335 */
  const MKEY_CONTEXT := [Field(0x0, 1), Field(0x1, 1), Field(0x2, 1), Field(0x3, 3), Field(0x6, 7), Field(0xd, 1),
    Field(0xe, 1), Field(0xf, 1), Field(0x10, 1), Field(0x11, 1), Field(0x12, 1), Field(0x13, 1), Field(0x14, 1),
    Field(0x15, 1), Field(0x16, 2), Field(0x18, 8), Field(0x20, 24), Field(0x38, 8), Field(0x40, 32), Field(0x60, 1),
    Field(0x61, 1), Field(0x62, 1), Field(0x63, 2), Field(0x65, 1), Field(0x66, 1), Field(0x67, 1), Field(0x68, 24),
    Field(0x80, 64), Field(0xc0, 64), Field(0x100, 32), Field(0x120, 128), Field(0x1a0, 32)]

  /** create_tir_in, src/dcmd/prm.h:7354 */
  const CREATE_TIR := [Field(0x0, 16), Field(0x10, 16), Field(0x20, 16), Field(0x30, 16), Field(0x40, 192)]

  /** modify_tir_in, src/dcmd/prm.h:5967 */
  const MODIFY_TIR := [Field(0x0, 16), Field(0x10, 16), Field(0x20, 16), Field(0x30, 16), Field(0x40, 8),
    Field(0x48, 24), Field(0x60, 32), Field(0x80, 64), Field(0xc0, 64)]

  /** modify_tir_bitmask, src/dcmd/prm.h:5947 */
  const TIR_BITMASK := [Field(0x0, 32), Field(0x20, 27), Field(0x3b, 1), Field(0x3c, 1), Field(0x3d, 1),
    Field(0x3e, 1), Field(0x3f, 1)]

  /** tirc, src/dcmd/prm.h:3035 */
  const TIR_CONTEXT := [Field(0x0, 32), Field(0x20, 4), Field(0x24, 1), Field(0x25, 1), Field(0x26, 1),
    Field(0x27, 25), Field(0x40, 64), Field(0x80, 4), Field(0x84, 16), Field(0x94, 4), Field(0x98, 8),
    Field(0xa0, 64), Field(0xe0, 8), Field(0xe8, 24), Field(0x100, 1), Field(0x101, 1), Field(0x102, 1),
    Field(0x103, 5), Field(0x108, 24), Field(0x120, 4), Field(0x124, 2), Field(0x126, 2), Field(0x128, 24),
    Field(0x140, 320), Field(0x280, 32), Field(0x2a0, 32), Field(0x2c0, 32)]

  /** modify_sq_in, src/dcmd/prm.h:5995 */
  const MODIFY_SQ := [Field(0x0, 16), Field(0x10, 16), Field(0x20, 16), Field(0x30, 16), Field(0x40, 4),
    Field(0x44, 4), Field(0x48, 24), Field(0x60, 32), Field(0x80, 64), Field(0xc0, 64)]

  /** sqc, src/dcmd/prm.h:3127 */
  const SQ_CONTEXT := [Field(0x0, 1), Field(0x1, 1), Field(0x2, 1), Field(0x3, 1), Field(0x4, 1), Field(0x5, 3),
    Field(0x8, 4), Field(0xc, 1), Field(0xd, 1), Field(0xe, 1), Field(0xf, 11), Field(0x1a, 2), Field(0x1c, 4),
    Field(0x20, 8), Field(0x28, 24), Field(0x40, 8), Field(0x48, 24), Field(0x60, 8), Field(0x68, 24),
    Field(0x80, 16), Field(0x90, 16), Field(0xa0, 80), Field(0xf0, 16)]

  /** wq, src/dcmd/prm.h:1615 */
  const WORK_QUEUE := [Field(0x0, 4), Field(0x4, 1), Field(0x5, 2), Field(0x7, 1), Field(0x8, 24), Field(0x20, 1),
    Field(0x21, 3), Field(0x24, 7), Field(0x2b, 5), Field(0x30, 16), Field(0x40, 8), Field(0x48, 24), Field(0x60, 8),
    Field(0x68, 24), Field(0x80, 64), Field(0xc0, 32), Field(0xe0, 32), Field(0x100, 12), Field(0x10c, 4),
    Field(0x110, 3), Field(0x113, 5), Field(0x118, 3), Field(0x11b, 5), Field(0x120, 1), Field(0x121, 1),
    Field(0x122, 1), Field(0x123, 5), Field(0x128, 3), Field(0x12b, 5), Field(0x130, 4), Field(0x134, 4),
    Field(0x138, 1), Field(0x139, 4), Field(0x13d, 3)]

  /** mlx5_wqe_umr_repeat_block_seg, src/dcmd/windows/def.h:242 */
  const REPEAT_HEADER := [Field(0x0, 32), Field(0x20, 32), Field(0x40, 32), Field(0x60, 16), Field(0x70, 16)]

  /** mlx5_wqe_umr_repeat_ent_seg, src/dcmd/windows/def.h:235 */
  const REPEAT_ENTRY := [Field(0x0, 16), Field(0x10, 16), Field(0x20, 32), Field(0x40, 64)]

  /** Where a structure ends. */
  function End(fs: seq<Field>): nat {
    if fs == [] then 0 else fs[|fs| - 1].off + fs[|fs| - 1].width
  }

  /** Every field starts where the one before it ends: at the sum of the widths before it. */
  predicate Packed(fs: seq<Field>) {
    fs != [] && fs[0].off == 0 && PackedFrom(fs, 0, |fs|)
  }

  predicate PackedFrom(fs: seq<Field>, lo: nat, hi: nat)
    requires hi <= |fs|
  {
    forall i | lo < i < hi :: fs[i].off == fs[i - 1].off + fs[i - 1].width
  }

  lemma PackedParts(fs: seq<Field>, mid: nat)
    requires 0 < mid < |fs| && fs[0].off == 0 && PackedFrom(fs, 0, mid + 1) && PackedFrom(fs, mid, |fs|)
    ensures Packed(fs)
  {
  }

  lemma Lyr24First()
    ensures PackedFrom(LYR_2_4, 0, 14)
  {
  }

  lemma Lyr24Second()
    ensures PackedFrom(LYR_2_4, 13, |LYR_2_4|)
  {
  }

  lemma Lyr24Packed()
    ensures Packed(LYR_2_4)
  {
    hide PackedFrom;
    Lyr24First();
    Lyr24Second();
    PackedParts(LYR_2_4, 13);
  }

  lemma Misc2Packed()
    ensures Packed(MISC_2)
  {
  }

  lemma Misc4Packed()
    ensures Packed(MISC_4)
  {
  }

  lemma MatchParamPacked()
    ensures Packed(MATCH_PARAM)
  {
  }

  lemma SetFtePacked()
    ensures Packed(SET_FTE)
  {
  }

  lemma FlowContextPacked()
    ensures Packed(FLOW_CONTEXT)
  {
  }

  lemma DestFormatPacked()
    ensures Packed(DEST_FORMAT)
  {
  }

  lemma CreateTablePacked()
    ensures Packed(CREATE_TABLE)
  {
  }

  lemma TableContextPacked()
    ensures Packed(TABLE_CONTEXT)
  {
  }

  lemma CreateGroupPacked()
    ensures Packed(CREATE_GROUP)
  {
  }

  lemma AllocModifyPacked()
    ensures Packed(ALLOC_MODIFY)
  {
  }

  lemma SetActionPacked()
    ensures Packed(SET_ACTION)
  {
  }

  lemma CopyActionPacked()
    ensures Packed(COPY_ACTION)
  {
  }

  lemma CreateMkeyPacked()
    ensures Packed(CREATE_MKEY)
  {
  }

  lemma MkeyContextFirst()
    ensures PackedFrom(MKEY_CONTEXT, 0, 17)
  {
  }

  lemma MkeyContextSecond()
    ensures PackedFrom(MKEY_CONTEXT, 16, |MKEY_CONTEXT|)
  {
  }

  lemma MkeyContextPacked()
    ensures Packed(MKEY_CONTEXT)
  {
    hide PackedFrom;
    MkeyContextFirst();
    MkeyContextSecond();
    PackedParts(MKEY_CONTEXT, 16);
  }

  lemma CreateTirPacked()
    ensures Packed(CREATE_TIR)
  {
  }

  lemma ModifyTirPacked()
    ensures Packed(MODIFY_TIR)
  {
  }

  lemma TirBitmaskPacked()
    ensures Packed(TIR_BITMASK)
  {
  }

  lemma TirContextFirst()
    ensures PackedFrom(TIR_CONTEXT, 0, 14)
  {
  }

  lemma TirContextSecond()
    ensures PackedFrom(TIR_CONTEXT, 13, |TIR_CONTEXT|)
  {
  }

  lemma TirContextPacked()
    ensures Packed(TIR_CONTEXT)
  {
    hide PackedFrom;
    TirContextFirst();
    TirContextSecond();
    PackedParts(TIR_CONTEXT, 13);
  }

  lemma ModifySqPacked()
    ensures Packed(MODIFY_SQ)
  {
  }

  lemma SqContextFirst()
    ensures PackedFrom(SQ_CONTEXT, 0, 12)
  {
  }

  lemma SqContextSecond()
    ensures PackedFrom(SQ_CONTEXT, 11, |SQ_CONTEXT|)
  {
  }

  lemma SqContextPacked()
    ensures Packed(SQ_CONTEXT)
  {
    hide PackedFrom;
    SqContextFirst();
    SqContextSecond();
    PackedParts(SQ_CONTEXT, 11);
  }

  lemma WorkQueueFirst()
    ensures PackedFrom(WORK_QUEUE, 0, 18)
  {
  }

  lemma WorkQueueSecond()
    ensures PackedFrom(WORK_QUEUE, 17, |WORK_QUEUE|)
  {
  }

  lemma WorkQueuePacked()
    ensures Packed(WORK_QUEUE)
  {
    hide PackedFrom;
    WorkQueueFirst();
    WorkQueueSecond();
    PackedParts(WORK_QUEUE, 17);
  }

  lemma RepeatHeaderPacked()
    ensures Packed(REPEAT_HEADER)
  {
  }

  lemma RepeatEntryPacked()
    ensures Packed(REPEAT_ENTRY)
  {
  }

  /** Every structure is packed. */
  lemma AllPacked()
    ensures Packed(LYR_2_4) && Packed(MISC_2) && Packed(MISC_4) && Packed(MATCH_PARAM) && Packed(SET_FTE)
    ensures Packed(FLOW_CONTEXT) && Packed(DEST_FORMAT) && Packed(CREATE_TABLE) && Packed(TABLE_CONTEXT)
    ensures Packed(CREATE_GROUP) && Packed(ALLOC_MODIFY) && Packed(SET_ACTION) && Packed(COPY_ACTION)
    ensures Packed(CREATE_MKEY) && Packed(MKEY_CONTEXT) && Packed(CREATE_TIR) && Packed(MODIFY_TIR)
    ensures Packed(TIR_BITMASK) && Packed(TIR_CONTEXT) && Packed(MODIFY_SQ) && Packed(SQ_CONTEXT)
    ensures Packed(WORK_QUEUE) && Packed(REPEAT_HEADER) && Packed(REPEAT_ENTRY)
  {
    hide Packed;
    Lyr24Packed();
    Misc2Packed();
    Misc4Packed();
    MatchParamPacked();
    SetFtePacked();
    FlowContextPacked();
    DestFormatPacked();
    CreateTablePacked();
    TableContextPacked();
    CreateGroupPacked();
    AllocModifyPacked();
    SetActionPacked();
    CopyActionPacked();
    CreateMkeyPacked();
    MkeyContextPacked();
    CreateTirPacked();
    ModifyTirPacked();
    TirBitmaskPacked();
    TirContextPacked();
    ModifySqPacked();
    SqContextPacked();
    WorkQueuePacked();
    RepeatHeaderPacked();
    RepeatEntryPacked();
  }

  /** Where a match block has the fields of layer 2. */
  lemma MatchLayer2()
    ensures FM.FieldOf(FM.Smac47) == LYR_2_4[0] && FM.FieldOf(FM.Smac15) == LYR_2_4[1]
    ensures FM.FieldOf(FM.Ethertype) == LYR_2_4[2] && FM.FieldOf(FM.Dmac47) == LYR_2_4[3]
    ensures FM.FieldOf(FM.Dmac15) == LYR_2_4[4] && FM.FieldOf(FM.FirstVid) == LYR_2_4[7]
    ensures FM.FieldOf(FM.CvlanTag) == LYR_2_4[11]
  {
  }

  /** Where it has those of layer 3. */
  lemma MatchLayer3()
    ensures FM.FieldOf(FM.IpProtocol) == LYR_2_4[8] && FM.FieldOf(FM.IpVersion) == LYR_2_4[14]
    ensures FM.FieldOf(FM.SrcIp) == LYR_2_4[23] && FM.FieldOf(FM.DstIp) == LYR_2_4[25]
  {
  }

  /** Where it has the ports. */
  lemma MatchLayer4()
    ensures FM.FieldOf(FM.TcpSport) == LYR_2_4[16] && FM.FieldOf(FM.TcpDport) == LYR_2_4[17]
    ensures FM.FieldOf(FM.UdpSport) == LYR_2_4[20] && FM.FieldOf(FM.UdpDport) == LYR_2_4[21]
  {
  }

  /** Where it has the metadata register and the parser samples. */
  lemma MatchRest(i: nat)
    requires i < 8
    ensures FM.FieldOf(FM.RegC0) == MISC_2[11].At(MATCH_PARAM[3].off)
    ensures FM.FieldOf(FM.SampleValue(i)) == MISC_4[2 * i].At(MATCH_PARAM[5].off)
    ensures FM.FieldOf(FM.SampleId(i)) == MISC_4[2 * i + 1].At(MATCH_PARAM[5].off)
    ensures End(MATCH_PARAM) == 8 * FM.PARAM_BYTES
  {
  }

  /** Where an entry has its place and its actions. */
  lemma EntryFields()
    ensures FR.OPCODE == SET_FTE[0] && FR.TABLE_TYPE == SET_FTE[8] && FR.TABLE_ID == SET_FTE[11]
    ensures FR.FLOW_INDEX == SET_FTE[15] && FR.GROUP_ID == FLOW_CONTEXT[1].At(End(SET_FTE))
    ensures FR.FLOW_TAG == FLOW_CONTEXT[3].At(End(SET_FTE)) && FR.ACTION == FLOW_CONTEXT[5].At(End(SET_FTE))
    ensures FR.DEST_LIST_SIZE == FLOW_CONTEXT[7].At(End(SET_FTE))
    ensures FR.PACKET_REFORMAT_ID == FLOW_CONTEXT[10].At(End(SET_FTE))
    ensures FR.MODIFY_HEADER_ID == FLOW_CONTEXT[11].At(End(SET_FTE))
    ensures FR.MATCH_VALUE == End(SET_FTE) + FLOW_CONTEXT[13].off
    ensures FR.DESTINATION == End(SET_FTE) + End(FLOW_CONTEXT) == 8 * FR.FTE_BYTES
  {
  }

  /** Destinations follow one another. */
  lemma DestinationFields(i: nat)
    ensures FR.DestType(i) == DEST_FORMAT[0].At(FR.DESTINATION + i * End(DEST_FORMAT))
    ensures FR.DestId(i) == DEST_FORMAT[1].At(FR.DESTINATION + i * End(DEST_FORMAT))
    ensures End(DEST_FORMAT) == 8 * FR.DEST_BYTES
  {
  }

  /** Where the command that creates a table has its fields. */
  lemma TableFields()
    ensures SC.OPCODE == CREATE_TABLE[0] && SC.OP_MOD == CREATE_TABLE[3] && SC.TABLE_TYPE == CREATE_TABLE[8]
    ensures SC.REFORMAT_EN == TABLE_CONTEXT[0].At(End(CREATE_TABLE))
    ensures SC.DECAP_EN == TABLE_CONTEXT[1].At(End(CREATE_TABLE))
    ensures SC.MISS_ACTION == TABLE_CONTEXT[4].At(End(CREATE_TABLE))
    ensures SC.LEVEL == TABLE_CONTEXT[5].At(End(CREATE_TABLE))
    ensures SC.LOG_SIZE == TABLE_CONTEXT[7].At(End(CREATE_TABLE))
    ensures SC.MISS_ID == TABLE_CONTEXT[9].At(End(CREATE_TABLE))
  {
  }

  /** Where the command that creates a group has its fields and its mask. */
  lemma GroupFields()
    ensures SC.OPCODE == CREATE_GROUP[0] && SC.TABLE_ID == CREATE_GROUP[11] && SC.START_INDEX == CREATE_GROUP[13]
    ensures SC.END_INDEX == CREATE_GROUP[15] && SC.CRITERIA_ENABLE == CREATE_GROUP[18]
    ensures SC.MATCH_CRITERIA == CREATE_GROUP[19].off
  {
  }

  /** The header-modify command and its two kinds of action. */
  lemma ModifyFields()
    ensures MH.OPCODE == ALLOC_MODIFY[0] && MH.TABLE_TYPE == ALLOC_MODIFY[5] && MH.NUM_OF_ACTIONS == ALLOC_MODIFY[7]
    ensures MH.ACTION_TYPE == SET_ACTION[0] && MH.FIELD_1 == SET_ACTION[1] && MH.OFFSET_1 == SET_ACTION[3]
    ensures MH.LENGTH == SET_ACTION[5] && MH.DATA == SET_ACTION[6] && MH.ACTION_TYPE == COPY_ACTION[0]
    ensures MH.FIELD_1 == COPY_ACTION[1] && MH.OFFSET_1 == COPY_ACTION[3] && MH.LENGTH == COPY_ACTION[5]
    ensures MH.FIELD_2 == COPY_ACTION[7] && MH.OFFSET_2 == COPY_ACTION[9]
    ensures End(ALLOC_MODIFY) == 8 * MH.HEADER_BYTES && End(SET_ACTION) == End(COPY_ACTION) == 8 * MH.MOD_BYTES
  {
  }

  /** The command that creates a memory key. */
  lemma MkeyFields()
    ensures PM.OPCODE == CREATE_MKEY[0] && PM.OCTWORDS_ACTUAL == CREATE_MKEY[12]
    ensures PM.ACCESS_MODE_4_2 == MKEY_CONTEXT[3].At(CREATE_MKEY[10].off)
    ensures PM.LOCAL_WRITE == MKEY_CONTEXT[12].At(CREATE_MKEY[10].off)
    ensures PM.LOCAL_READ == MKEY_CONTEXT[13].At(CREATE_MKEY[10].off)
    ensures PM.ACCESS_MODE_1_0 == MKEY_CONTEXT[14].At(CREATE_MKEY[10].off)
    ensures PM.QPN == MKEY_CONTEXT[16].At(CREATE_MKEY[10].off)
    ensures PM.MKEY_7_0 == MKEY_CONTEXT[17].At(CREATE_MKEY[10].off)
    ensures PM.PD == MKEY_CONTEXT[26].At(CREATE_MKEY[10].off)
    ensures PM.START_ADDR == MKEY_CONTEXT[27].At(CREATE_MKEY[10].off)
    ensures PM.LEN == MKEY_CONTEXT[28].At(CREATE_MKEY[10].off)
    ensures PM.OCTWORDS == MKEY_CONTEXT[31].At(CREATE_MKEY[10].off)
    ensures PM.BLOCK == End(CREATE_MKEY) == 8 * PM.CREATE_MKEY_BYTES
  {
  }

  /** The repeat block behind it: a header and entries. */
  lemma RepeatFields(i: nat)
    ensures PM.BYTE_COUNT == REPEAT_HEADER[0].At(PM.BLOCK) && PM.OP == REPEAT_HEADER[1].At(PM.BLOCK)
    ensures PM.REPEAT_COUNT == REPEAT_HEADER[2].At(PM.BLOCK) && PM.NUM_ENT == REPEAT_HEADER[4].At(PM.BLOCK)
    ensures PM.E_STRIDE == REPEAT_ENTRY[0] && PM.E_BYTES == REPEAT_ENTRY[1]
    ensures PM.E_KEY == REPEAT_ENTRY[2] && PM.E_VA == REPEAT_ENTRY[3]
    ensures PM.EntryBase(i) == PM.BLOCK + End(REPEAT_HEADER) + i * End(REPEAT_ENTRY)
  {
  }

  /** The commands that create and modify a TIR. */
  lemma TirCommandFields()
    ensures TC.OPCODE == CREATE_TIR[0] && TC.OPCODE == MODIFY_TIR[0] && TC.TIRN == MODIFY_TIR[5]
    ensures TC.MASK_LRO == TIR_BITMASK[6].At(MODIFY_TIR[7].off)
    ensures TC.TIR_CONTEXT == End(CREATE_TIR) == End(MODIFY_TIR)
  {
  }

  /** The context of a TIR. */
  lemma TirContextFields()
    ensures TC.TLS_EN == TIR_CONTEXT[2] && TC.ZEROCOPY_EN == TIR_CONTEXT[3] && TC.CRC_EN == TIR_CONTEXT[4]
    ensures TC.LRO_TIMEOUT == TIR_CONTEXT[8] && TC.LRO_ENABLE == TIR_CONTEXT[9] && TC.LRO_MAX == TIR_CONTEXT[10]
    ensures TC.INLINE_RQN == TIR_CONTEXT[13] && TC.SELF_LB_BLOCK == TIR_CONTEXT[21]
    ensures TC.TRANSPORT_DOMAIN == TIR_CONTEXT[22] && TC.TAG_TABLE == TIR_CONTEXT[26]
  {
  }

  /** The command that modifies a send queue. */
  lemma SqFields()
    ensures PP.OPCODE == MODIFY_SQ[0] && PP.SQ_STATE == MODIFY_SQ[4] && PP.SQN == MODIFY_SQ[6]
    ensures PP.BITMASK == MODIFY_SQ[8] && PP.CTX_STATE == SQ_CONTEXT[6].At(End(MODIFY_SQ))
    ensures PP.RATE_INDEX == SQ_CONTEXT[22].At(End(MODIFY_SQ))
  {
  }

  /** The sizes in a work queue. */
  lemma WqFields()
    ensures QG.LOG_WQ_STRIDE == WORK_QUEUE[18] && QG.LOG_WQ_SZ == WORK_QUEUE[22]
    ensures QG.LOG_NUM_STRIDES == WORK_QUEUE[30] && QG.LOG_STRIDE_BYTES == WORK_QUEUE[33]
  {
  }
}
