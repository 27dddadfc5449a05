/** The numbers that the code and what is said about it share, as the source has them. */
module SourceConstants {
  import BlockFormat
  import Checksums
  import HuffmanCodes
  import HuffmanTree
  import MoveToFront
  import Recover
  import RunInput
  import StreamFormat
  import TableChoice

  /** The symbols of the second run-length code, groups, tables and selectors. */
  lemma OfBlocks()
    ensures MoveToFront.RUNA == 0 && MoveToFront.RUNB == 1
    ensures BlockFormat.G_SIZE == 50 && BlockFormat.N_GROUPS == 6 && BlockFormat.MAX_SELECTORS == 2 + 900000 / 50
    ensures HuffmanTree.MAX_ALPHA_SIZE == 258 && HuffmanCodes.MAX_LEN == 20 && HuffmanCodes.MAX_CODE_LEN == 23
    ensures TableChoice.N_ITERS == 4 && TableChoice.LESSER_ICOST == 0 && TableChoice.GREATER_ICOST == 15
  {
  }

  /** When a block is full, and how a checksum begins. */
  lemma OfStreams(blockSize100k: nat)
    ensures StreamFormat.FullAt(blockSize100k) == 100000 * blockSize100k - 19
    ensures Checksums.INITIAL == 0xffff_ffff && RunInput.NO_CHAR == 256
  {
  }

  /** The recoverer's marks and limits. */
  lemma OfRecoverer()
    ensures Recover.BLOCK_HEADER_HI == 0x3141 && Recover.BLOCK_HEADER_LO == 0x5926_5359
    ensures Recover.BLOCK_ENDMARK_HI == 0x1772 && Recover.BLOCK_ENDMARK_LO == 0x4538_5090
    ensures Recover.MAX_HANDLED_BLOCKS == 50000 && Recover.MIN_BITS == 130
  {
  }
}
